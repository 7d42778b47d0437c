/** What holds of every run of the whole system. */
module ClusterTheorems {
  import opened Sequences
  import opened Keys
  import opened Records
  import opened VersionCatalog
  import opened Download
  import opened Cluster
  import opened ClusterInvariant
  import S = StorageProtocol
  import Sched = Scheduler
  import Chunker
  import VersionLists

  lemma {:induction false} FinalConcat(c: Cluster, run: seq<Action>, more: seq<Action>)
    ensures Legal(c, run + more) <==> Legal(c, run) && Legal(Final(c, run), more)
    ensures Legal(c, run + more) ==> Final(c, run + more) == Final(Final(c, run), more)
    decreases run
  {
    hide Enabled;
    if run == [] {
      assert run + more == more;
    } else {
      assert (run + more)[1..] == run[1..] + more;
      if Enabled(c, run[0]) { FinalConcat(Next(c, run[0]), run[1..], more); }
    }
  }

  lemma ReachableInv(run: seq<Action>)
    requires Legal(GENESIS, run)
    ensures Inv(Final(GENESIS, run))
  {
    GenesisInv();
    RunKeepsInv(GENESIS, run);
  }

  // -------------------------------------------------------------- replica agreement

  /** In every reachable state, nodes that hold the same chunk hold the same bytes. */
  lemma ReplicasAgree(run: seq<Action>, a: string, b: string, id: string)
    requires Legal(GENESIS, run)
    requires var stores := Final(GENESIS, run).net.stores; id in Held(stores, a) && id in Held(stores, b)
    ensures var stores := Final(GENESIS, run).net.stores; Held(stores, a)[id] == Held(stores, b)[id]
  {
    ReachableInv(run);
    hide Final, Legal, S.Inv, SessionsOk, JournalOk, VersionsOk;
    SameBytes(Final(GENESIS, run), a, b, id);
  }

  lemma SameBytes(c: Cluster, a: string, b: string, id: string)
    requires NetOk(c.net, c.j.content) && id in Held(c.net.stores, a) && id in Held(c.net.stores, b)
    ensures Held(c.net.stores, a)[id] == Held(c.net.stores, b)[id]
  {
    assert c.j.content[id] == Held(c.net.stores, a)[id];
    assert c.j.content[id] == Held(c.net.stores, b)[id];
  }

  /** When an upload confirms a chunk, every address the client wrote to holds the chunk's piece,
      unless the file was erased there since. The client has written to every replica; the
      server's handler only to the first. */
  lemma ConfirmedReplicasHold(run: seq<Action>, k: nat, hash: string, i: nat)
    requires Legal(GENESIS, run) && Enabled(Final(GENESIS, run), UploadConfirm(k, hash))
    requires var u := Final(GENESIS, run).up.open[k];
             i < |u.current.value.addrs| && (u.viaServer ==> i == 0)
    ensures var c := Final(GENESIS, run);
            var u := c.up.open[k];
            var addr, id := u.current.value.addrs[i], u.current.value.chunkID;
            (addr, id) in c.j.erased
            || (id in Held(c.net.stores, addr) && |u.done| < |u.pieces| && Held(c.net.stores, addr)[id] == u.pieces[|u.done|])
  {
    ReachableInv(run);
    hide S.Inv, JournalOk, VersionsOk, Flatten, Legal;
    var c := Final(GENESIS, run);
    assert UploadOk(c, k, c.up.open[k]);
  }

  // ------------------------------------------------------------- end-to-end reads

  lemma ChosenMember(cat: Catalog, fileID: string, number: int)
    requires Target(cat, fileID, number).Some?
    ensures InCatalog(cat, Target(cat, fileID, number).value)
  {
    var list := ListOf(cat.versions, fileID);
    VersionLists.FindSpec(list, number);
    ListMember(cat, fileID, Target(cat, fileID, number).value);
  }

  /** Whatever replicas answer, what they return is the content of the chunks. */
  lemma {:induction false} ReadAllContents(chunks: map<string, Chunk>, fabric: Fabric, ids: seq<string>, content: map<string, Bytes>)
    requires forall addr, id :: id in Held(fabric.stores, addr) ==> id in content && content[id] == Held(fabric.stores, addr)[id]
    requires ReadAll(chunks, fabric, ids).Some?
    ensures Contents(ids, content) == ReadAll(chunks, fabric, ids)
  {
    if ids != [] {
      var last := ids[|ids| - 1];
      ReadAllContents(chunks, fabric, ids[..|ids| - 1], content);
      FirstServingSpec(fabric, last, chunks[last].replicas);
    }
  }

  /** The server's view of the network when only the addresses in `up` answer. */
  function FabricOf(c: Cluster, up: set<string>): Fabric {
    Fabric(c.net.nodes, c.net.stores, up)
  }

  lemma ReadFrom(c: Cluster, up: set<string>, fileID: string, number: int)
    requires Inv(c)
    requires Read(c.cat, c.w.s.chunks, FabricOf(c, up), fileID, number).Some?
    ensures Target(c.cat, fileID, number).Some?
    ensures var v := Target(c.cat, fileID, number).value;
            v.versionID in c.j.truth ==>
              Read(c.cat, c.w.s.chunks, FabricOf(c, up), fileID, number) == Some(c.j.truth[v.versionID])
  {
    var v := Target(c.cat, fileID, number).value;
    ChosenMember(c.cat, fileID, number);
    ReadAllContents(c.w.s.chunks, FabricOf(c, up), v.chunkIDs, c.j.content);
    hide S.Inv, SessionsOk, JournalOk, Contents, ReadAll, Target, InCatalog;
    assert VersionOk(v, c.j);
  }

  /** A session keeps the data it was opened with. */
  lemma StepKeepsData(c: Cluster, a: Action, k: nat)
    requires Enabled(c, a) && k < c.up.count
    ensures k < Next(c, a).up.count
    ensures k in Next(c, a).up.open ==>
              k in c.up.open && Next(c, a).up.open[k].pieces == c.up.open[k].pieces
              && Next(c, a).up.open[k].fileID == c.up.open[k].fileID
              && Next(c, a).up.open[k].viaServer == c.up.open[k].viaServer
  {
    hide Sched.IsSelection, S.Enabled, S.Next, S.Apply, S.Record, FreshChunks, Flatten, Held, Store, Apply;
  }

  lemma {:induction false} SessionKeepsData(c: Cluster, run: seq<Action>, k: nat)
    requires Legal(c, run) && k < c.up.count && k in Final(c, run).up.open
    ensures k in c.up.open && Final(c, run).up.open[k].pieces == c.up.open[k].pieces
    decreases run
  {
    if run != [] {
      StepKeepsData(c, run[0], k);
      hide Enabled, Next;
      SessionKeepsData(Next(c, run[0]), run[1..], k);
    }
  }

  lemma ManageKeepsTruth(c: Cluster, op: Op, x: string)
    requires x in c.j.truth && Stamped(x, c.j.clock)
    requires op.Create? || op.CreateMeta? || op.Rollback? ==> c.j.clock < op.stamp
    ensures x in DoManage(c, op).j.truth && DoManage(c, op).j.truth[x] == c.j.truth[x]
  {
    if Created(c.cat, op).Some? {
      CreatedShape(c, op);
      NewStamp(op.stamp, c.j.clock);
    }
    hide Created, VersionID, Stamped;
  }

  /** What has been recorded about a version's bytes is never changed. */
  lemma StepKeepsTruth(c: Cluster, a: Action, x: string)
    requires Inv(c) && Enabled(c, a) && x in c.j.truth
    ensures x in Next(c, a).j.truth && Next(c, a).j.truth[x] == c.j.truth[x]
  {
    hide S.Inv, NetOk, SessionsOk, VersionsOk, Sched.IsSelection, S.Enabled, S.Next, FreshChunks;
    assert Stamped(x, c.j.clock);
    hide DoManage, VersionID, Stamped;
    if a.Manage? {
      ManageKeepsTruth(c, a.op, x);
    } else if a.UploadFinish? {
      ManageKeepsTruth(c, FinishOp(c, a), x);
      NewStamp(a.stamp, c.j.clock);
    }
  }

  lemma {:induction false} TruthStays(c: Cluster, run: seq<Action>, x: string)
    requires Inv(c) && Legal(c, run) && x in c.j.truth
    ensures x in Final(c, run).j.truth && Final(c, run).j.truth[x] == c.j.truth[x]
    decreases run
  {
    hide Inv, Enabled;
    if run != [] {
      StepKeepsTruth(c, run[0], x);
      StepKeepsInv(c, run[0]);
      TruthStays(Next(c, run[0]), run[1..], x);
    }
  }

  lemma FinishRecords(c: Cluster, a: Action)
    requires Enabled(c, a) && a.UploadFinish?
    ensures VersionID(a.stamp) in Next(c, a).j.truth
            && Next(c, a).j.truth[VersionID(a.stamp)] == Flatten(c.up.open[a.k].pieces)
  {
  }

  /** The bytes an upload sends: the pieces of the file, or what the client makes of them. */
  function Uploaded(begin: Action): Bytes
    requires begin.BeginServer? || begin.BeginClient?
  {
    Flatten(if begin.BeginServer? then ServerPieces(begin.data) else begin.pieces)
  }

  /** For a server-side upload these are the file's own bytes, unless its chunk count overflows: then
      nothing is sent, although the upload succeeds. */
  lemma ServerBytes(data: Bytes)
    requires data != [] && |data| <= Chunker.MAX_INT64
    ensures Flatten(ServerPieces(data)) == if Chunker.Overflows(|data|) then [] else data
  {
    Chunker.SizeInRange(data);
    Chunker.SplitWhole(data, Chunker.ChunkSize(|data|));
    hide Chunker.Split, Chunker.ChunkSize;
  }

  /** The end-to-end guarantee. Take any run in which an upload begins as session k and later
      finishes with version stamp t. At any later moment, whatever uploads, replications,
      losses, deletions, rollbacks, node changes and restarts happened in between, a download
      that selects that version and succeeds returns exactly the uploaded bytes. */
  lemma UploadThenRead(before: seq<Action>, begin: Action, during: seq<Action>, finish: Action,
                       after: seq<Action>, up: set<string>, readID: string, number: int)
    requires (begin.BeginServer? || begin.BeginClient?) && finish.UploadFinish?
    requires Legal(GENESIS, before + [begin] + during + [finish] + after)
    requires finish.k == Final(GENESIS, before).up.count
    requires var c := Final(GENESIS, before + [begin] + during + [finish] + after);
             Target(c.cat, readID, number).Some?
             && Target(c.cat, readID, number).value.versionID == VersionID(finish.stamp)
             && Read(c.cat, c.w.s.chunks, FabricOf(c, up), readID, number).Some?
    ensures var c := Final(GENESIS, before + [begin] + during + [finish] + after);
            Read(c.cat, c.w.s.chunks, FabricOf(c, up), readID, number) == Some(Uploaded(begin))
  {
    hide Read, Target, Enabled, Next, Inv;
    var r1 := before + [begin];
    var r2 := r1 + during;
    var r3 := r2 + [finish];
    FinalConcat(GENESIS, r3, after);
    FinalConcat(GENESIS, r2, [finish]);
    FinalConcat(GENESIS, r1, during);
    FinalConcat(GENESIS, before, [begin]);
    var c0, c1, c2, c3 := Final(GENESIS, before), Final(GENESIS, r1), Final(GENESIS, r2), Final(GENESIS, r3);
    OneStep(c0, begin);
    OneStep(c2, finish);
    BeginOpens(c0, begin);
    FinishSession(c2, finish);
    SessionKeepsData(c1, during, finish.k);
    FinishRecords(c2, finish);
    ReachableInv(r3);
    TruthStays(c3, after, VersionID(finish.stamp));
    ReachableInv(r3 + after);
    ReadFrom(Final(GENESIS, r3 + after), up, readID, number);
  }

  lemma OneStep(c: Cluster, a: Action)
    requires Legal(c, [a])
    ensures Enabled(c, a) && Final(c, [a]) == Next(c, a)
  {
    hide Enabled;
    assert [a][1..] == [];
  }

  lemma BeginOpens(c: Cluster, begin: Action)
    requires (begin.BeginServer? || begin.BeginClient?) && Enabled(c, begin)
    ensures var c' := Next(c, begin);
            c'.up.count == c.up.count + 1 && c.up.count in c'.up.open
            && Flatten(c'.up.open[c.up.count].pieces) == Uploaded(begin)
  {
  }

  lemma FinishSession(c: Cluster, a: Action)
    requires Enabled(c, a) && a.UploadFinish?
    ensures a.k in c.up.open
  {
  }

  /** And it does succeed exactly when each chunk of the selected version is known and one of its
      listed replicas is registered, reachable and holds it. */
  lemma ReadSucceedsIff(c: Cluster, up: set<string>, fileID: string, number: int)
    ensures Read(c.cat, c.w.s.chunks, FabricOf(c, up), fileID, number).Some?
            <==> Target(c.cat, fileID, number).Some?
                 && forall id :: id in Target(c.cat, fileID, number).value.chunkIDs ==>
                      Available(c.w.s.chunks, FabricOf(c, up), id)
    ensures forall id ::
              Available(c.w.s.chunks, FabricOf(c, up), id)
              <==> id in c.w.s.chunks
                   && exists n :: n in c.w.s.chunks[id].replicas && n in c.net.nodes && Address(c.net.nodes[n]) in up
                        && id in Held(c.net.stores, Address(c.net.nodes[n]))
  {
    if Target(c.cat, fileID, number).Some? {
      ReadAllSucceeds(c.w.s.chunks, FabricOf(c, up), Target(c.cat, fileID, number).value.chunkIDs);
    }
    hide Target, ReadAll;
    forall id ensures Available(c.w.s.chunks, FabricOf(c, up), id)
      <==> id in c.w.s.chunks
           && exists n :: n in c.w.s.chunks[id].replicas && n in c.net.nodes && Address(c.net.nodes[n]) in up
                && id in Held(c.net.stores, Address(c.net.nodes[n]))
    {
      AvailableIff(c, up, id);
    }
  }

  lemma AvailableIff(c: Cluster, up: set<string>, id: string)
    ensures Available(c.w.s.chunks, FabricOf(c, up), id)
            <==> id in c.w.s.chunks
                 && exists n :: n in c.w.s.chunks[id].replicas && n in c.net.nodes && Address(c.net.nodes[n]) in up
                      && id in Held(c.net.stores, Address(c.net.nodes[n]))
  {
    if id in c.w.s.chunks {
      forall n ensures Serves(FabricOf(c, up), n, id)
        <==> n in c.net.nodes && Address(c.net.nodes[n]) in up && id in Held(c.net.stores, Address(c.net.nodes[n])) {}
      hide Serves;
    }
  }
}
