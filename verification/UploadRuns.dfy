/** The upload loops, as the handlers run them, are runs of the whole-system machine: what holds of
    every run holds of them, and a finished upload can be read back. */
module UploadRuns {
  import opened Sequences
  import opened Keys
  import opened Records
  import opened VersionCatalog
  import opened Download
  import opened Cluster
  import opened ClusterInvariant
  import opened ClusterTheorems
  import opened ChunkUpload
  import S = StorageProtocol
  import Sched = Scheduler
  import Chunker

  // ------------------------------------------------------------- the actions

  function Puts(k: nat, n: nat): seq<Action>
    decreases n
  {
    if n == 0 then [] else Puts(k, n - 1) + [UploadPut(k, true)]
  }

  function ChunkActions(k: nat, requested: int, viaServer: bool, e: Sent): seq<Action> {
    [UploadPrepare(k, requested, e.sel, e.stamp)] + Puts(k, |Reached(viaServer, Addresses(e.sel))|)
    + [UploadConfirm(k, e.hash)]
  }

  function UploadActions(k: nat, requested: int, viaServer: bool, sent: seq<Sent>): seq<Action>
    decreases |sent|
  {
    if sent == [] then []
    else UploadActions(k, requested, viaServer, sent[..|sent| - 1]) + ChunkActions(k, requested, viaServer, sent[|sent| - 1])
  }

  lemma Join(c: Cluster, run: seq<Action>, more: seq<Action>)
    requires Legal(c, run) && Legal(Final(c, run), more)
    ensures Legal(c, run + more) && Final(c, run + more) == Final(Final(c, run), more)
  {
    FinalConcat(c, run, more);
  }

  lemma Single(c: Cluster, a: Action)
    requires Enabled(c, a)
    ensures Legal(c, [a]) && Final(c, [a]) == Next(c, a)
  {
    hide Enabled, Next;
    assert [a][1..] == [];
  }

  // ----------------------------------------------------------------- one chunk

  /** Session k is working on a chunk and has had some of its PUTs acknowledged. */
  ghost predicate Writing(c: Cluster, k: nat) {
    && k in c.up.open && c.up.open[k].current.Some? && |c.up.open[k].done| < |c.up.open[k].pieces|
    && c.up.open[k].current.value.acked <= |c.up.open[k].current.value.addrs|
  }

  /** c' is c after n more acknowledged PUTs of session k. */
  ghost predicate AfterPuts(c: Cluster, c': Cluster, k: nat, n: nat)
    requires Writing(c, k)
  {
    var u := c.up.open[k];
    var f := u.current.value;
    && f.acked + n <= |f.addrs|
    && c'.w == c.w && c'.cat == c.cat && c'.net.nodes == c.net.nodes && c'.j.clock == c.j.clock
    && c'.up == c.up.(open := c.up.open[k := u.(current := Some(f.(acked := f.acked + n)))])
    && c'.net.stores == StoreAll(c.net.stores, f.addrs[f.acked..f.acked + n], f.chunkID, u.pieces[|u.done|])
  }

  lemma OnePutStores(stores: Stores, f: InFlight, n: nat, data: Bytes)
    requires f.acked + n < |f.addrs|
    ensures StoreAll(stores, f.addrs[f.acked..f.acked + n + 1], f.chunkID, data)
            == Store(StoreAll(stores, f.addrs[f.acked..f.acked + n], f.chunkID, data), f.addrs[f.acked + n], f.chunkID, data)
  {
    var addrs := f.addrs[f.acked..f.acked + n + 1];
    assert addrs[..n] == f.addrs[f.acked..f.acked + n] && addrs[n] == f.addrs[f.acked + n];
  }

  lemma PutNext(c: Cluster, k: nat)
    requires Writing(c, k) && c.up.open[k].current.value.acked < |c.up.open[k].current.value.addrs|
    requires c.up.open[k].viaServer ==> c.up.open[k].current.value.acked == 0
    ensures var a := UploadPut(k, true);
            var u := c.up.open[k];
            var f := u.current.value;
            && Enabled(c, a)
            && Next(c, a).w == c.w && Next(c, a).cat == c.cat && Next(c, a).net.nodes == c.net.nodes && Next(c, a).j.clock == c.j.clock
            && Next(c, a).up == c.up.(open := c.up.open[k := u.(current := Some(f.(acked := f.acked + 1)))])
            && Next(c, a).net.stores == Store(c.net.stores, f.addrs[f.acked], f.chunkID, u.pieces[|u.done|])
  {
  }

  lemma OnePut(c: Cluster, c1: Cluster, k: nat, n: nat)
    requires Writing(c, k) && AfterPuts(c, c1, k, n) && c.up.open[k].current.value.acked + n < |c.up.open[k].current.value.addrs|
    requires c.up.open[k].viaServer ==> c.up.open[k].current.value.acked + n == 0
    ensures Enabled(c1, UploadPut(k, true)) && AfterPuts(c, Next(c1, UploadPut(k, true)), k, n + 1)
  {
    hide StoreAll, Store, Next, Enabled;
    var u := c.up.open[k];
    var f := u.current.value;
    OnePutStores(c.net.stores, f, n, u.pieces[|u.done|]);
    PutNext(c1, k);
  }

  lemma {:induction false} PutsRun(c: Cluster, k: nat, n: nat)
    requires Writing(c, k) && c.up.open[k].current.value.acked + n <= |c.up.open[k].current.value.addrs|
    requires c.up.open[k].viaServer ==> c.up.open[k].current.value.acked + n <= 1
    ensures Legal(c, Puts(k, n)) && AfterPuts(c, Final(c, Puts(k, n)), k, n)
    decreases n
  {
    hide Enabled, Next;
    if n == 0 {
      assert c.up.open[k := c.up.open[k]] == c.up.open;
    } else {
      PutsRun(c, k, n - 1);
      var c1 := Final(c, Puts(k, n - 1));
      OnePut(c, c1, k, n - 1);
      hide AfterPuts, Legal, Final;
      Single(c1, UploadPut(k, true));
      Join(c, Puts(k, n - 1), [UploadPut(k, true)]);
    }
  }

  /** Session k is between two chunks. */
  ghost predicate Idle(c: Cluster, k: nat) {
    k in c.up.open && c.up.open[k].current.None?
  }

  /** What one chunk does to the cluster. */
  ghost predicate AfterChunk(c: Cluster, c': Cluster, k: nat, requested: int, e: Sent)
    requires Idle(c, k)
  {
    var u := c.up.open[k];
    && Idle(c', k)
    && c'.up.open[k] == u.(done := u.done + [SentID(u.fileID, e)], others := u.others + Addresses(e.sel)[Min(1, |e.sel|)..])
    && c'.w.s == StorageAfter(c.w.s, u.fileID, requested, e) && c'.w.h.clock == e.stamp
    && c'.net.stores == StoresAfter(c.net.stores, u.fileID, u.viaServer, e)
    && c'.net.nodes == c.net.nodes && c'.cat == c.cat && c'.j.clock == c.j.clock
  }

  ghost predicate CanSend(c: Cluster, k: nat, requested: int, e: Sent) {
    && Idle(c, k) && |c.up.open[k].done| < |c.up.open[k].pieces|
    && e.data == c.up.open[k].pieces[|c.up.open[k].done|]
    && Placed(c.net.nodes, requested, e) && c.w.h.clock < e.stamp
  }

  lemma PrepareStep(c: Cluster, k: nat, requested: int, e: Sent)
    requires CanSend(c, k, requested, e)
    ensures var a := UploadPrepare(k, requested, e.sel, e.stamp);
            var u := c.up.open[k];
            && Enabled(c, a) && Writing(Next(c, a), k)
            && Next(c, a).up.open[k] == u.(current := Some(InFlight(SentID(u.fileID, e), Addresses(e.sel), 0)))
            && Next(c, a).w.s == S.Apply(c.w.s, PrepareOp(u.fileID, requested, e)) && Next(c, a).w.h.clock == e.stamp
            && Next(c, a).net == c.net && Next(c, a).cat == c.cat && Next(c, a).j == c.j
            && SentID(u.fileID, e) in Next(c, a).w.s.chunks
            && Next(c, a).up.open == c.up.open[k := Next(c, a).up.open[k]]
  {
    Sched.SelectionShape(c.net.nodes, S.Wanted(requested), {}, e.sel);
    hide Sched.IsSelection;
    assert Sched.NodeIDs(e.sel) != [];
    PreparedKnown(c.w.s, c.up.open[k].fileID, requested, e);
  }

  lemma ConfirmStep(c: Cluster, k: nat, hash: string)
    requires Writing(c, k)
    requires var f := c.up.open[k].current.value;
             f.chunkID in c.w.s.chunks && (if c.up.open[k].viaServer then f.acked > 0 else f.acked == |f.addrs|)
    ensures var a := UploadConfirm(k, hash);
            var u := c.up.open[k];
            var f := u.current.value;
            && Enabled(c, a) && Idle(Next(c, a), k)
            && Next(c, a).up.open[k] == u.(done := u.done + [f.chunkID], current := None,
                                           others := u.others + if f.addrs == [] then [] else f.addrs[1..])
            && Next(c, a).w.s == S.Apply(c.w.s, S.Confirm(f.chunkID, hash)) && Next(c, a).w.h.clock == c.w.h.clock
            && Next(c, a).net == c.net && Next(c, a).cat == c.cat && Next(c, a).j == c.j
  {
  }

  /** One chunk, as uploadChunk or uploadFile sends it. */
  lemma ChunkRun(c: Cluster, k: nat, requested: int, e: Sent)
    requires CanSend(c, k, requested, e)
    ensures var run := ChunkActions(k, requested, c.up.open[k].viaServer, e);
            Legal(c, run) && AfterChunk(c, Final(c, run), k, requested, e)
  {
    var u, addrs := c.up.open[k], Addresses(e.sel);
    var n := |Reached(u.viaServer, addrs)|;
    var prepare, puts, confirm := [UploadPrepare(k, requested, e.sel, e.stamp)], Puts(k, n), [UploadConfirm(k, e.hash)];
    PrepareStep(c, k, requested, e);
    assert addrs[0..n] == Reached(u.viaServer, addrs);
    assert addrs[1..] == addrs[Min(1, |e.sel|)..] && addrs != [];
    hide Enabled, Next, Puts, S.Apply, Legal, Final, StoreAll, Addresses, Sched.IsSelection;
    Single(c, prepare[0]);
    var c1 := Next(c, prepare[0]);
    PutsRun(c1, k, n);
    var c2 := Final(c1, puts);
    ConfirmStep(c2, k, e.hash);
    Single(c2, confirm[0]);
    Join(c, prepare, puts);
    Join(c, prepare + puts, confirm);
  }

  // -------------------------------------------------------------- whole uploads

  /** The stamps an upload takes from the clock are new and increasing. */
  ghost predicate Ticking(clock: nat, sent: seq<Sent>) {
    (forall i :: 0 <= i < |sent| ==> clock < sent[i].stamp)
    && forall i, j :: 0 <= i < j < |sent| ==> sent[i].stamp < sent[j].stamp
  }

  /** The job of session k, which has not started yet. */
  ghost predicate JobOf(c: Cluster, k: nat, job: Job) {
    && Idle(c, k) && c.up.open[k].done == [] && c.up.open[k].others == []
    && c.up.open[k].pieces == job.pieces && c.up.open[k].fileID == job.fileID && c.up.open[k].viaServer == job.viaServer
    && c.net.nodes == job.nodes
  }

  ghost predicate AfterUpload(c: Cluster, c': Cluster, k: nat, job: Job, sent: seq<Sent>)
    requires Idle(c, k)
  {
    && Idle(c', k)
    && c'.up.open[k] == c.up.open[k].(done := SentIDs(job.fileID, sent), others := Others(sent))
    && c'.w.s == StorageAfterAll(c.w.s, job.fileID, job.requested, sent)
    && c'.w.h.clock == (if sent == [] then c.w.h.clock else sent[|sent| - 1].stamp)
    && c'.net.stores == StoresAfterAll(c.net.stores, job.fileID, job.viaServer, sent)
    && c'.net.nodes == c.net.nodes && c'.cat == c.cat && c'.j.clock == c.j.clock
  }

  lemma MoreUpload(c: Cluster, c1: Cluster, c2: Cluster, k: nat, job: Job, sent: seq<Sent>, e: Sent)
    requires JobOf(c, k, job) && AfterUpload(c, c1, k, job, sent) && AfterChunk(c1, c2, k, job.requested, e)
    ensures AfterUpload(c, c2, k, job, sent + [e])
  {
    hide StorageAfter, StoresAfter;
    SentAppend(c.w.s, c.net.stores, job.fileID, job.requested, job.viaServer, sent, e);
  }

  lemma NextChunk(c: Cluster, c1: Cluster, k: nat, job: Job, sent: seq<Sent>)
    requires sent != [] && JobOf(c, k, job) && AllSent(job, sent) && Ticking(c.w.h.clock, sent)
    requires AfterUpload(c, c1, k, job, sent[..|sent| - 1])
    ensures CanSend(c1, k, job.requested, sent[|sent| - 1])
  {
    hide StorageAfterAll, StoresAfterAll, Sched.IsSelection, Written;
  }

  lemma FewerSent(job: Job, sent: seq<Sent>, clock: nat)
    requires sent != [] && AllSent(job, sent) && Ticking(clock, sent)
    ensures AllSent(job, sent[..|sent| - 1]) && Ticking(clock, sent[..|sent| - 1])
  {
    hide Placed, Written;
  }

  lemma NothingUploaded(c: Cluster, k: nat, job: Job)
    requires JobOf(c, k, job)
    ensures AfterUpload(c, c, k, job, [])
  {
    assert c.up.open[k].(done := SentIDs(job.fileID, []), others := Others([])) == c.up.open[k];
  }

  /** The chunk loop of a whole upload is a run of session k. */
  lemma {:induction false} UploadRun(c: Cluster, k: nat, job: Job, sent: seq<Sent>)
    requires JobOf(c, k, job) && AllSent(job, sent) && Ticking(c.w.h.clock, sent)
    ensures var run := UploadActions(k, job.requested, job.viaServer, sent);
            Legal(c, run) && AfterUpload(c, Final(c, run), k, job, sent)
    decreases |sent|
  {
    hide Enabled, Next, ChunkActions, Placed, AfterUpload, AfterChunk, AllSent, Ticking, StorageAfterAll, StoresAfterAll, Puts;
    if sent == [] {
      NothingUploaded(c, k, job);
    } else {
      var front, e := sent[..|sent| - 1], sent[|sent| - 1];
      FewerSent(job, sent, c.w.h.clock);
      UploadRun(c, k, job, front);
      hide Legal, Final;
      var c1 := Final(c, UploadActions(k, job.requested, job.viaServer, front));
      NextChunk(c, c1, k, job, sent);
      SameSession(c, c1, k, job, front);
      ChunkRun(c1, k, job.requested, e);
      var chunk := ChunkActions(k, job.requested, job.viaServer, e);
      MoreUpload(c, c1, Final(c1, chunk), k, job, front, e);
      assert front + [e] == sent;
      Join(c, UploadActions(k, job.requested, job.viaServer, front), chunk);
    }
  }

  lemma SameSession(c: Cluster, c1: Cluster, k: nat, job: Job, sent: seq<Sent>)
    requires JobOf(c, k, job) && AfterUpload(c, c1, k, job, sent)
    ensures Idle(c1, k) && c1.up.open[k].viaServer == job.viaServer
  {
  }

  // ------------------------------------------------------- the server's handler

  function ServerRun(c: Cluster, fileID: string, content: Bytes, requested: int, sent: seq<Sent>,
                     name: string, path: string, hash: string, stamp: nat): seq<Action>
  {
    [BeginServer(fileID, content)] + UploadActions(c.up.count, requested, true, sent)
    + [UploadFinish(c.up.count, name, path, |content|, hash, stamp)]
  }

  /** The saved records depend only on the file, its size and the collected addresses. */
  lemma {:induction false} SameSaves(u: Upload, u': Upload, ids: seq<string>)
    requires u.fileID == u'.fileID && |u.data| == |u'.data| && u.others == u'.others
    ensures OverwriteOps(u, ids) == OverwriteOps(u', ids)
  {
    if ids != [] { SameSaves(u, u', ids[1..]); }
  }

  lemma SameServerSaves(u: Upload, fileID: string, content: Bytes, ids: seq<string>)
    requires u.fileID == fileID && u.data == content
    ensures OverwriteOps(u, ids) == OverwriteOps(ServerUpload(fileID, content, u.others), ids)
  {
    SameSaves(u, ServerUpload(fileID, content, u.others), ids);
  }

  lemma ServerFinish(c: Cluster, k: nat, name: string, path: string, hash: string, stamp: nat)
    requires Idle(c, k) && |c.up.open[k].done| == |c.up.open[k].pieces| && c.j.clock < stamp && c.up.open[k].viaServer
    requires c.up.open[k].fileID !in c.cat.files && ListOf(c.cat.versions, c.up.open[k].fileID) == []
    ensures var u := c.up.open[k];
            var a := UploadFinish(k, name, path, |u.data|, hash, stamp);
            var op := Create(u.fileID, name, path, u.done, u.others, |u.data|, hash, stamp);
            && Enabled(c, a)
            && Next(c, a).cat == Apply(c.cat, op) && Next(c, a).net == c.net
            && Next(c, a).w.s == S.ApplyAll(S.ApplyAll(c.w.s, S.DeleteOps(Removed(c.cat, op))), OverwriteOps(u, u.done))
            && VersionID(stamp) in Next(c, a).j.truth && Next(c, a).j.truth[VersionID(stamp)] == Flatten(u.pieces)
  {
    hide Apply, Removed, S.Apply, S.Record, S.ApplyAll, S.DeleteOps, OverwriteOps;
    var u := c.up.open[k];
    var op := Create(u.fileID, name, path, u.done, u.others, |u.data|, hash, stamp);
    S.FinalStorage(c.w, S.DeleteOps(Removed(c.cat, op)));
    S.FinalStorage(S.Final(c.w, S.DeleteOps(Removed(c.cat, op))), OverwriteOps(u, u.done));
  }

  /** uploadFile, as one uninterrupted run of the machine. Its final state is what the handler's
      contract (FileManagement.FileManager.UploadFile) says about its own. */
  lemma ServerUploadIsARun(c: Cluster, job: Job, content: Bytes, sent: seq<Sent>, name: string, path: string, hash: string, stamp: nat)
    requires content != [] && |content| <= Chunker.MAX_INT64
    requires job.viaServer && job.nodes == c.net.nodes && job.pieces == ServerPieces(content)
    requires AllSent(job, sent) && |sent| == |job.pieces| && Ticking(c.w.h.clock, sent)
    requires job.fileID !in c.cat.files && ListOf(c.cat.versions, job.fileID) == [] && c.j.clock < stamp
    ensures var run := ServerRun(c, job.fileID, content, job.requested, sent, name, path, hash, stamp);
            var ids, others := SentIDs(job.fileID, sent), Others(sent);
            var op := Create(job.fileID, name, path, ids, others, |content|, hash, stamp);
            && Legal(c, run)
            && Final(c, run).cat == Apply(c.cat, op)
            && Final(c, run).net.stores == StoresAfterAll(c.net.stores, job.fileID, true, sent)
            && Final(c, run).net.nodes == c.net.nodes
            && Final(c, run).w.s ==
               S.ApplyAll(S.ApplyAll(StorageAfterAll(c.w.s, job.fileID, job.requested, sent), S.DeleteOps(Removed(c.cat, op))),
                          OverwriteOps(ServerUpload(job.fileID, content, others), ids))
            && VersionID(stamp) in Final(c, run).j.truth && Final(c, run).j.truth[VersionID(stamp)] == Flatten(job.pieces)
  {
    var k := c.up.count;
    var begin, finish := BeginServer(job.fileID, content), UploadFinish(k, name, path, |content|, hash, stamp);
    var chunks := UploadActions(k, job.requested, true, sent);
    hide *;
    ServerBegins(c, job, content);
    var c1 := Next(c, begin);
    Single(c, begin);
    UploadRun(c1, k, job, sent);
    var c2 := Final(c1, chunks);
    UploadedState(c1, c2, k, job, sent);
    ServerFinish(c2, k, name, path, hash, stamp);
    SameServerSaves(c2.up.open[k], job.fileID, content, SentIDs(job.fileID, sent));
    Single(c2, finish);
    Join(c, [begin], chunks);
    Join(c, [begin] + chunks, [finish]);
    ServerRunParts(c, job.fileID, content, job.requested, sent, name, path, hash, stamp);
  }

  lemma ServerBegins(c: Cluster, job: Job, content: Bytes)
    requires content != [] && |content| <= Chunker.MAX_INT64
    requires job.viaServer && job.nodes == c.net.nodes && job.pieces == ServerPieces(content)
    ensures Enabled(c, BeginServer(job.fileID, content))
    ensures var c1 := Next(c, BeginServer(job.fileID, content));
            && JobOf(c1, c.up.count, job) && c1.cat == c.cat && c1.w == c.w && c1.net == c.net && c1.j == c.j
            && c1.up.open[c.up.count].data == content
  {
    hide ServerPieces;
  }

  lemma ServerRunParts(c: Cluster, fileID: string, content: Bytes, requested: int, sent: seq<Sent>,
                       name: string, path: string, hash: string, stamp: nat)
    ensures ServerRun(c, fileID, content, requested, sent, name, path, hash, stamp)
            == [BeginServer(fileID, content)] + UploadActions(c.up.count, requested, true, sent)
               + [UploadFinish(c.up.count, name, path, |content|, hash, stamp)]
  {
  }

  lemma UploadedState(c: Cluster, c': Cluster, k: nat, job: Job, sent: seq<Sent>)
    requires JobOf(c, k, job) && AfterUpload(c, c', k, job, sent)
    ensures Idle(c', k) && k in c'.up.open && c'.up.open[k].done == SentIDs(job.fileID, sent) && c'.up.open[k].others == Others(sent)
    ensures c'.up.open[k].data == c.up.open[k].data && c'.up.open[k].pieces == job.pieces
    ensures c'.up.open[k].fileID == job.fileID && c'.up.open[k].viaServer == job.viaServer
    ensures c'.w.s == StorageAfterAll(c.w.s, job.fileID, job.requested, sent)
    ensures c'.net.stores == StoresAfterAll(c.net.stores, job.fileID, job.viaServer, sent)
    ensures c'.net.nodes == c.net.nodes && c'.cat == c.cat && c'.j.clock == c.j.clock
  {
    hide StorageAfterAll, StoresAfterAll;
  }

  // ------------------------------------------------------ the client's uploader

  function ClientRun(c: Cluster, job: Job, sent: seq<Sent>, name: string, path: string, size: int, hash: string, stamp: nat): seq<Action> {
    [BeginClient(job.fileID, job.pieces)] + UploadActions(c.up.count, job.requested, false, sent)
    + [UploadFinish(c.up.count, name, path, size, hash, stamp)]
  }

  lemma ClientFinish(c: Cluster, k: nat, name: string, path: string, size: int, hash: string, stamp: nat)
    requires Idle(c, k) && |c.up.open[k].done| == |c.up.open[k].pieces| && c.j.clock < stamp && !c.up.open[k].viaServer
    ensures var u := c.up.open[k];
            var a := UploadFinish(k, name, path, size, hash, stamp);
            var op := Create(u.fileID, name, path, u.done, [], size, hash, stamp);
            && Enabled(c, a)
            && Next(c, a).cat == Apply(c.cat, op) && Next(c, a).net == c.net
            && Next(c, a).w.s == S.ApplyAll(c.w.s, S.DeleteOps(Removed(c.cat, op)))
            && VersionID(stamp) in Next(c, a).j.truth && Next(c, a).j.truth[VersionID(stamp)] == Flatten(u.pieces)
  {
    hide Apply, Removed, S.Apply, S.Record, S.ApplyAll, S.DeleteOps;
    var u := c.up.open[k];
    S.FinalStorage(c.w, S.DeleteOps(Removed(c.cat, Create(u.fileID, name, path, u.done, [], size, hash, stamp))));
  }

  /** Upload followed by HandleCreateVersion, as one uninterrupted run of the machine. */
  lemma ClientUploadIsARun(c: Cluster, job: Job, sent: seq<Sent>, name: string, path: string, size: int, hash: string, stamp: nat)
    requires !job.viaServer && job.nodes == c.net.nodes
    requires AllSent(job, sent) && |sent| == |job.pieces| && Ticking(c.w.h.clock, sent) && c.j.clock < stamp
    ensures var run := ClientRun(c, job, sent, name, path, size, hash, stamp);
            var op := Create(job.fileID, name, path, SentIDs(job.fileID, sent), [], size, hash, stamp);
            && Legal(c, run)
            && Final(c, run).cat == Apply(c.cat, op)
            && Final(c, run).net.stores == StoresAfterAll(c.net.stores, job.fileID, false, sent)
            && Final(c, run).net.nodes == c.net.nodes
            && Final(c, run).w.s ==
               S.ApplyAll(StorageAfterAll(c.w.s, job.fileID, job.requested, sent), S.DeleteOps(Removed(c.cat, op)))
            && VersionID(stamp) in Final(c, run).j.truth && Final(c, run).j.truth[VersionID(stamp)] == Flatten(job.pieces)
  {
    var k := c.up.count;
    var begin, finish := BeginClient(job.fileID, job.pieces), UploadFinish(k, name, path, size, hash, stamp);
    var chunks := UploadActions(k, job.requested, false, sent);
    hide *;
    ClientBegins(c, job);
    var c1 := Next(c, begin);
    Single(c, begin);
    UploadRun(c1, k, job, sent);
    var c2 := Final(c1, chunks);
    UploadedState(c1, c2, k, job, sent);
    ClientFinish(c2, k, name, path, size, hash, stamp);
    Single(c2, finish);
    Join(c, [begin], chunks);
    Join(c, [begin] + chunks, [finish]);
    ClientRunParts(c, job, sent, name, path, size, hash, stamp);
  }

  lemma ClientBegins(c: Cluster, job: Job)
    requires !job.viaServer && job.nodes == c.net.nodes
    ensures Enabled(c, BeginClient(job.fileID, job.pieces))
    ensures var c1 := Next(c, BeginClient(job.fileID, job.pieces));
            && JobOf(c1, c.up.count, job) && c1.cat == c.cat && c1.w == c.w && c1.net == c.net && c1.j == c.j
            && c1.up.open[c.up.count].data == Flatten(job.pieces)
  {
    hide Flatten;
  }

  lemma ClientRunParts(c: Cluster, job: Job, sent: seq<Sent>, name: string, path: string, size: int, hash: string, stamp: nat)
    ensures ClientRun(c, job, sent, name, path, size, hash, stamp)
            == [BeginClient(job.fileID, job.pieces)] + UploadActions(c.up.count, job.requested, false, sent)
               + [UploadFinish(c.up.count, name, path, size, hash, stamp)]
  {
  }

  // ----------------------------------------------------------- uploads that fail

  /** The PUT that was not acknowledged. */
  function BrokenPut(fileID: string, b: Break): PutRequest
    requires b.acked < |b.e.sel|
  {
    PutRequest(Addresses(b.e.sel)[b.acked], SentID(fileID, b.e), b.e.data)
  }

  /** The chunk an upload breaks off at: no node, or some PUTs and then one that fails, whose data may
      still arrive. */
  function BreakActions(k: nat, requested: int, fileID: string, b: Break, reply: Reply): seq<Action> {
    [UploadPrepare(k, requested, b.e.sel, b.e.stamp)]
    + (if b.acked >= |b.e.sel| then []
       else Puts(k, b.acked) + [UploadPut(k, false)] + if reply.Acked? || reply.stored then [Deliver(BrokenPut(fileID, b))] else [])
  }

  /** What is left of a broken-off chunk: a pending record, and whatever the PUTs stored. */
  ghost predicate AfterBreak(c: Cluster, c': Cluster, k: nat, requested: int, b: Break, reply: Reply)
    requires Idle(c, k)
  {
    var u := c.up.open[k];
    && c'.up.open == c.up.open - {k}
    && c'.w.s == S.Apply(c.w.s, PrepareOp(u.fileID, requested, b.e))
    && c'.net.stores == StoresBroken(c.net.stores, u.fileID, b, reply)
    && c'.net.nodes == c.net.nodes && c'.cat == c.cat && c'.j.clock == c.j.clock
  }

  ghost predicate CanBreak(c: Cluster, k: nat, requested: int, b: Break) {
    && Idle(c, k) && |c.up.open[k].done| < |c.up.open[k].pieces|
    && b.e.data == c.up.open[k].pieces[|c.up.open[k].done|]
    && Sched.IsSelection(c.net.nodes, S.Wanted(requested), {}, b.e.sel) && c.w.h.clock < b.e.stamp
    && (if b.e.sel == [] then b.acked == 0 else b.acked < |b.e.sel| && (c.up.open[k].viaServer ==> b.acked == 0))
  }

  lemma NoNodeStep(c: Cluster, k: nat, requested: int, b: Break, reply: Reply)
    requires CanBreak(c, k, requested, b) && b.e.sel == []
    ensures var a := UploadPrepare(k, requested, b.e.sel, b.e.stamp);
            Enabled(c, a) && AfterBreak(c, Next(c, a), k, requested, b, reply)
  {
    hide Sched.IsSelection;
    assert Sched.NodeIDs(b.e.sel) == [];
  }

  /** Session k's next PUT is not acknowledged. */
  lemma FailedPut(c: Cluster, k: nat)
    requires Writing(c, k) && c.up.open[k].current.value.acked < |c.up.open[k].current.value.addrs|
    requires c.up.open[k].viaServer ==> c.up.open[k].current.value.acked == 0
    ensures var a := UploadPut(k, false);
            var f := c.up.open[k].current.value;
            && Enabled(c, a)
            && Next(c, a).w == c.w && Next(c, a).cat == c.cat && Next(c, a).j.clock == c.j.clock
            && Next(c, a).net.nodes == c.net.nodes && Next(c, a).net.stores == c.net.stores
            && Next(c, a).up.open == c.up.open - {k}
            && PutRequest(f.addrs[f.acked], f.chunkID, c.up.open[k].pieces[|c.up.open[k].done|]) in Next(c, a).net.wire
  {
  }

  lemma LateArrival(c: Cluster, put: PutRequest)
    requires put in c.net.wire
    ensures var c' := Next(c, Deliver(put));
            && c'.w == c.w && c'.cat == c.cat && c'.j.clock == c.j.clock && c'.up == c.up
            && c'.net.nodes == c.net.nodes && c'.net.stores == Store(c.net.stores, put.addr, put.chunkID, put.data)
  {
  }

  lemma BreakRun(c: Cluster, k: nat, requested: int, b: Break, reply: Reply)
    requires CanBreak(c, k, requested, b)
    ensures var run := BreakActions(k, requested, c.up.open[k].fileID, b, reply);
            Legal(c, run) && AfterBreak(c, Final(c, run), k, requested, b, reply)
  {
    var u := c.up.open[k];
    var prepare := [UploadPrepare(k, requested, b.e.sel, b.e.stamp)];
    if b.e.sel == [] {
      NoNodeStep(c, k, requested, b, reply);
      hide Enabled, Next, AfterBreak;
      Single(c, prepare[0]);
      assert BreakActions(k, requested, u.fileID, b, reply) == prepare;
    } else {
      BrokenPutsRun(c, k, requested, b, reply);
    }
  }

  /** Up to the PUT that is not acknowledged, whose data is then still on its way. */
  lemma PutsThenFail(c: Cluster, k: nat, requested: int, b: Break)
    requires CanBreak(c, k, requested, b) && b.e.sel != []
    ensures var run := [UploadPrepare(k, requested, b.e.sel, b.e.stamp)] + Puts(k, b.acked) + [UploadPut(k, false)];
            && Legal(c, run) && AfterBreak(c, Final(c, run), k, requested, b, Failed(false))
            && BrokenPut(c.up.open[k].fileID, b) in Final(c, run).net.wire
  {
    var u := c.up.open[k];
    var id, addrs := SentID(u.fileID, b.e), Addresses(b.e.sel);
    var prepare, puts, fails := [UploadPrepare(k, requested, b.e.sel, b.e.stamp)], Puts(k, b.acked), [UploadPut(k, false)];
    PrepareStep(c, k, requested, b.e);
    hide Enabled, Next, Puts, S.Apply, Legal, Final, StoreAll, Addresses, Sched.IsSelection, Store, AfterBreak;
    Single(c, prepare[0]);
    var c1 := Next(c, prepare[0]);
    PutsRun(c1, k, b.acked);
    var c2 := Final(c1, puts);
    FailedPut(c2, k);
    Single(c2, fails[0]);
    Join(c, prepare, puts);
    Join(c, prepare + puts, fails);
    BreakStates(c, c1, c2, Next(c2, fails[0]), k, requested, b);
  }

  /** The three stages of a broken-off chunk, put together. */
  lemma BreakStates(c: Cluster, c1: Cluster, c2: Cluster, c3: Cluster, k: nat, requested: int, b: Break)
    requires Idle(c, k) && b.acked < |b.e.sel|
    requires var u := c.up.open[k];
             && k in c1.up.open && c1.up.open == c.up.open[k := c1.up.open[k]]
             && c1.up.open[k] == u.(current := Some(InFlight(SentID(u.fileID, b.e), Addresses(b.e.sel), 0)))
             && c1.w.s == S.Apply(c.w.s, PrepareOp(u.fileID, requested, b.e)) && c1.net == c.net && c1.cat == c.cat && c1.j == c.j
             && |u.done| < |u.pieces| && b.e.data == u.pieces[|u.done|]
    requires Writing(c1, k) && AfterPuts(c1, c2, k, b.acked)
    requires c3.w == c2.w && c3.cat == c2.cat && c3.j.clock == c2.j.clock && c3.net.nodes == c2.net.nodes
             && c3.net.stores == c2.net.stores && c3.up.open == c2.up.open - {k}
    ensures AfterBreak(c, c3, k, requested, b, Failed(false))
  {
    ClosedAgain(c.up.open, k, c1.up.open[k], c2.up.open[k]);
    var addrs := Addresses(b.e.sel);
    assert addrs[0..b.acked] == addrs[..b.acked];
    hide S.Apply, StoreAll, PrepareOp, SentID, Addresses;
  }

  lemma ClosedAgain(open: map<nat, Upload>, k: nat, u: Upload, v: Upload)
    requires k in open
    ensures open[k := u][k := v] - {k} == open - {k}
  {
  }

  lemma BrokenPutsRun(c: Cluster, k: nat, requested: int, b: Break, reply: Reply)
    requires CanBreak(c, k, requested, b) && b.e.sel != []
    ensures var run := BreakActions(k, requested, c.up.open[k].fileID, b, reply);
            Legal(c, run) && AfterBreak(c, Final(c, run), k, requested, b, reply)
  {
    BreakShape(c, k, requested, b, reply);
    PutsThenFail(c, k, requested, b);
    var run := [UploadPrepare(k, requested, b.e.sel, b.e.stamp)] + Puts(k, b.acked) + [UploadPut(k, false)];
    var put := BrokenPut(c.up.open[k].fileID, b);
    hide *;
    if reply.Acked? || reply.stored {
      var c3 := Final(c, run);
      EnabledDeliver(c3, put);
      Single(c3, Deliver(put));
      Join(c, run, [Deliver(put)]);
      ArrivedAfterBreak(c, c3, k, requested, b, reply);
    } else {
      assert reply == Failed(false);
    }
  }

  lemma BreakShape(c: Cluster, k: nat, requested: int, b: Break, reply: Reply)
    requires CanBreak(c, k, requested, b) && b.e.sel != []
    ensures var run := [UploadPrepare(k, requested, b.e.sel, b.e.stamp)] + Puts(k, b.acked) + [UploadPut(k, false)];
            BreakActions(k, requested, c.up.open[k].fileID, b, reply)
            == if reply.Acked? || reply.stored then run + [Deliver(BrokenPut(c.up.open[k].fileID, b))] else run
  {
    hide Puts, Sched.IsSelection, BrokenPut;
  }

  /** When the data of the failed PUT arrives after all. */
  lemma ArrivedAfterBreak(c: Cluster, c3: Cluster, k: nat, requested: int, b: Break, reply: Reply)
    requires Idle(c, k) && b.acked < |b.e.sel| && (reply.Acked? || reply.stored)
    requires AfterBreak(c, c3, k, requested, b, Failed(false)) && BrokenPut(c.up.open[k].fileID, b) in c3.net.wire
    ensures Enabled(c3, Deliver(BrokenPut(c.up.open[k].fileID, b)))
    ensures AfterBreak(c, Next(c3, Deliver(BrokenPut(c.up.open[k].fileID, b))), k, requested, b, reply)
  {
    EnabledDeliver(c3, BrokenPut(c.up.open[k].fileID, b));
    LateArrival(c3, BrokenPut(c.up.open[k].fileID, b));
    hide Enabled, Next, S.Apply, StoreAll, PrepareOp, Store;
  }

  lemma EnabledDeliver(c: Cluster, put: PutRequest)
    requires put in c.net.wire
    ensures Enabled(c, Deliver(put))
  {
  }

  /** How an upload begins, on either path. */
  function BeginOf(job: Job, content: Bytes): Action {
    if job.viaServer then BeginServer(job.fileID, content) else BeginClient(job.fileID, job.pieces)
  }

  /** The job is one an uploader may be given in this state. */
  ghost predicate CanBegin(c: Cluster, job: Job, content: Bytes) {
    && job.nodes == c.net.nodes
    && (job.viaServer ==>
          content != [] && |content| <= Chunker.MAX_INT64
          && job.pieces == ServerPieces(content))
  }

  lemma Begins(c: Cluster, job: Job, content: Bytes)
    requires CanBegin(c, job, content)
    ensures Enabled(c, BeginOf(job, content))
    ensures var c1 := Next(c, BeginOf(job, content));
            && JobOf(c1, c.up.count, job) && c1.cat == c.cat && c1.w == c.w && c1.net == c.net && c1.j == c.j
            && c1.up.open - {c.up.count} == c.up.open - {c.up.count}
  {
    if job.viaServer { ServerBegins(c, job, content); } else { ClientBegins(c, job); }
    hide ServerPieces, Flatten, JobOf;
  }

  lemma StoppedCanBreak(c: Cluster, c1: Cluster, k: nat, job: Job, s: S.Storage, stores: Stores, sent: seq<Sent>, b: Break)
    requires JobOf(c, k, job) && AfterUpload(c, c1, k, job, sent)
    requires Stopped(job, c.w.s, c.net.stores, s, stores, sent, b) && Ticking(c.w.h.clock, sent + [b.e])
    ensures CanBreak(c1, k, job.requested, b)
    ensures s == S.Apply(c1.w.s, PrepareOp(job.fileID, job.requested, b.e))
    ensures stores == StoresBroken(c1.net.stores, job.fileID, b, job.put(|sent|, b.acked))
    ensures c1.up.open[k].fileID == job.fileID && AllSent(job, sent) && Ticking(c.w.h.clock, sent)
  {
    hide StorageAfterAll, StoresAfterAll, Sched.IsSelection, AllSent, StoresBroken, S.Apply;
    var all := sent + [b.e];
    assert all[|sent|] == b.e && forall i :: 0 <= i < |sent| ==> all[i] == sent[i];
  }

  /** An upload that fails, on either path, is a legal run of the machine too. It ends in the state that
      the uploaders' contracts give for a failure: the chunks sent stay confirmed, the one it broke off at
      stays pending, and no file or version has changed. */
  lemma FailedUploadIsARun(c: Cluster, job: Job, content: Bytes, s: S.Storage, stores: Stores, sent: seq<Sent>, b: Break)
    requires CanBegin(c, job, content)
    requires Stopped(job, c.w.s, c.net.stores, s, stores, sent, b) && Ticking(c.w.h.clock, sent + [b.e])
    ensures var k := c.up.count;
            var run := [BeginOf(job, content)] + UploadActions(k, job.requested, job.viaServer, sent)
                       + BreakActions(k, job.requested, job.fileID, b, job.put(|sent|, b.acked));
            && Legal(c, run)
            && Final(c, run).w.s == s && Final(c, run).net.stores == stores && Final(c, run).net.nodes == c.net.nodes
            && Final(c, run).cat == c.cat && k !in Final(c, run).up.open
  {
    hide *;
    var k := c.up.count;
    var begin, chunks := BeginOf(job, content), UploadActions(k, job.requested, job.viaServer, sent);
    var reply := job.put(|sent|, b.acked);
    Begins(c, job, content);
    Single(c, begin);
    var c1 := Next(c, begin);
    StoppedParts(job, c.w.s, c.net.stores, s, stores, sent, b, c.w.h.clock);
    UploadRun(c1, k, job, sent);
    var c2 := Final(c1, chunks);
    StoppedCanBreak(c1, c2, k, job, s, stores, sent, b);
    UploadedState(c1, c2, k, job, sent);
    BreakRun(c2, k, job.requested, b, reply);
    BrokenState(c2, Final(c2, BreakActions(k, job.requested, job.fileID, b, reply)), k, job.requested, b, reply);
    Join(c, [begin], chunks);
    Join(c, [begin] + chunks, BreakActions(k, job.requested, job.fileID, b, reply));
  }

  lemma StoppedParts(job: Job, s0: S.Storage, stores0: Stores, s: S.Storage, stores: Stores, sent: seq<Sent>, b: Break, clock: nat)
    requires Stopped(job, s0, stores0, s, stores, sent, b) && Ticking(clock, sent + [b.e])
    ensures AllSent(job, sent) && Ticking(clock, sent)
  {
    hide StorageAfterAll, StoresAfterAll, Sched.IsSelection, AllSent, StoresBroken, S.Apply;
    var all := sent + [b.e];
    assert forall i :: 0 <= i < |sent| ==> all[i] == sent[i];
  }

  lemma BrokenState(c: Cluster, c': Cluster, k: nat, requested: int, b: Break, reply: Reply)
    requires Idle(c, k) && AfterBreak(c, c', k, requested, b, reply)
    ensures k in c.up.open && k !in c'.up.open
    ensures c'.w.s == S.Apply(c.w.s, PrepareOp(c.up.open[k].fileID, requested, b.e))
    ensures c'.net.stores == StoresBroken(c.net.stores, c.up.open[k].fileID, b, reply)
    ensures c'.net.nodes == c.net.nodes && c'.cat == c.cat
  {
    hide S.Apply, StoresBroken;
  }

  // ------------------------------------------------------- management handlers

  /** A management handler of the file manager, as the contracts of FileManagement.FileManager state
      it, is one action of the machine. */
  lemma HandlerIsAStep(c: Cluster, op: Op)
    requires Enabled(c, Manage(op))
    ensures var c' := Final(c, [Manage(op)]);
            && Legal(c, [Manage(op)])
            && c'.cat == Apply(c.cat, op)
            && c'.w.s == S.ApplyAll(c.w.s, S.DeleteOps(Removed(c.cat, op)))
            && c'.net == c.net && c'.up == c.up
  {
    Single(c, Manage(op));
    S.FinalStorage(c.w, S.DeleteOps(Removed(c.cat, op)));
    hide Apply, Removed, S.Final, S.ApplyAll, S.DeleteOps, Enabled;
  }
}
