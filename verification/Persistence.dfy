/** The persistence manager: one bucket per kind of record. JSON is a lossless round trip and
    every bbolt transaction succeeds. */
module Persistence {
  import opened Sequences
  import opened Keys
  import opened Records
  import opened Bucket
  import VersionCatalog
  import NodeLifecycle

  ghost predicate KeyedChunks(b: seq<Entry<Chunk>>) {
    forall e :: e in b ==> e.key == e.value.chunkID
  }

  ghost predicate KeyedNodes(b: seq<Entry<NodeRecord>>) {
    forall e :: e in b ==> e.key == e.value.nodeID
  }

  ghost predicate KeyedFiles(b: seq<Entry<FileRecord>>) {
    forall e :: e in b ==> e.key == e.value.fileID
  }

  /** Adding the last entry of an ordered bucket to a map of the others. */
  lemma AsMapAppend<V>(b: seq<Entry<V>>, i: nat)
    requires Ordered(b) && i < |b|
    ensures Ordered(b[..i]) && Ordered(b[..i + 1])
    ensures AsMap(b[..i + 1]) == AsMap(b[..i])[b[i].key := b[i].value]
  {
    AsMapSnoc(b[..i], b[i]);
    assert b[..i + 1] == b[..i] + [b[i]];
  }

  lemma {:induction false} AsMapSnoc<V>(b: seq<Entry<V>>, e: Entry<V>)
    requires forall x :: x in b ==> Less(x.key, e.key)
    ensures AsMap(b + [e]) == AsMap(b)[e.key := e.value]
  {
    if b == [] {
      assert [e][1..] == [];
    } else {
      assert (b + [e])[1..] == b[1..] + [e];
      AsMapSnoc(b[1..], e);
      assert b[0] in b;
      LessIrreflexive(e.key);
    }
  }

  class PersistenceManager {
    var nodes: seq<Entry<NodeRecord>>
    var files: seq<Entry<FileRecord>>
    var replicas: seq<Entry<Version>>
    var chunks: seq<Entry<Chunk>>
    var speedTests: seq<Entry<Option<SpeedTest>>>

    ghost predicate Valid()
      reads this
    {
      && Ordered(nodes) && KeyedNodes(nodes)
      && Ordered(files) && KeyedFiles(files)
      && Ordered(replicas)
      && Ordered(chunks) && KeyedChunks(chunks)
      && Ordered(speedTests)
    }

    constructor ()
      ensures Valid()
      ensures nodes == [] && files == [] && replicas == [] && chunks == [] && speedTests == []
    {
      nodes, files, replicas, chunks, speedTests := [], [], [], [], [];
    }

    // ------------------------------------------------------------------ nodes

    method SaveNode(node: NodeRecord)
      requires Valid()
      modifies this`nodes
      ensures Valid() && AsMap(nodes) == old(AsMap(nodes))[node.nodeID := node]
    {
      PutSpec(nodes, node.nodeID, node);
      nodes := Put(nodes, node.nodeID, node);
    }

    method DeleteNode(nodeID: string)
      requires Valid()
      modifies this`nodes
      ensures Valid() && AsMap(nodes) == old(AsMap(nodes)) - {nodeID}
    {
      RemoveSpec(nodes, nodeID);
      nodes := Remove(nodes, nodeID);
    }

    /** LoadNodes: every record comes back, with "online" turned into "offline". */
    method LoadNodes() returns (r: map<string, NodeRecord>)
      requires Valid()
      ensures r == NodeLifecycle.ReloadAll(AsMap(nodes))
      ensures r.Keys == AsMap(nodes).Keys
      ensures forall k :: k in r ==>
                r[k] == AsMap(nodes)[k].(status := if AsMap(nodes)[k].status == Online then Offline else AsMap(nodes)[k].status)
    {
      r := map[];
      for i := 0 to |nodes|
        invariant r == NodeLifecycle.ReloadAll(AsMap(nodes[..i]))
      {
        AsMapAppend(nodes, i);
        var node := nodes[i].value;
        assert nodes[i] in nodes;
        if node.status == Online { node := node.(status := Offline); }
        r := r[node.nodeID := node];
      }
      assert nodes[..|nodes|] == nodes;
    }

    // ------------------------------------------------------------------ files

    method SaveFile(file: FileRecord)
      requires Valid()
      modifies this`files
      ensures Valid() && AsMap(files) == old(AsMap(files))[file.fileID := file]
    {
      PutSpec(files, file.fileID, file);
      files := Put(files, file.fileID, file);
    }

    method DeleteFile(fileID: string)
      requires Valid()
      modifies this`files
      ensures Valid() && AsMap(files) == old(AsMap(files)) - {fileID}
    {
      RemoveSpec(files, fileID);
      files := Remove(files, fileID);
    }

    method LoadFiles() returns (r: map<string, FileRecord>)
      requires Valid()
      ensures r == AsMap(files)
    {
      r := map[];
      for i := 0 to |files|
        invariant r == AsMap(files[..i])
      {
        AsMapAppend(files, i);
        assert files[i] in files;
        r := r[files[i].value.fileID := files[i].value];
      }
      assert files[..|files|] == files;
    }

    // --------------------------------------------------------------- versions

    /** Version records go to the "Replicas" bucket and are never removed from it. */
    method SaveVersion(fileID: string, version: Version)
      requires Valid()
      modifies this`replicas
      ensures Valid() && replicas == Put(old(replicas), VersionKey(fileID, version.versionID), version)
      ensures AsMap(replicas) == old(AsMap(replicas))[fileID + "_" + version.versionID := version]
    {
      PutSpec(replicas, VersionKey(fileID, version.versionID), version);
      replicas := Put(replicas, VersionKey(fileID, version.versionID), version);
    }

    /** LoadVersions groups the log by file, in key order. */
    method LoadVersions() returns (r: map<string, seq<Version>>)
      requires Valid()
      ensures r == VersionCatalog.Grouped(replicas)
    {
      r := map[];
      for i := 0 to |replicas|
        invariant r == VersionCatalog.Grouped(replicas[..i])
      {
        var v := replicas[i].value;
        GroupedAppend(replicas[..i], replicas[i]);
        assert replicas[..i + 1] == replicas[..i] + [replicas[i]];
        r := r[v.fileID := VersionCatalog.ListOf(r, v.fileID) + [v]];
      }
      assert replicas[..|replicas|] == replicas;
    }

    // ----------------------------------------------------------------- chunks

    method SaveChunk(chunk: Chunk)
      requires Valid()
      modifies this`chunks
      ensures Valid() && AsMap(chunks) == old(AsMap(chunks))[chunk.chunkID := chunk]
    {
      PutSpec(chunks, chunk.chunkID, chunk);
      chunks := Put(chunks, chunk.chunkID, chunk);
    }

    method DeleteChunk(chunkID: string)
      requires Valid()
      modifies this`chunks
      ensures Valid() && AsMap(chunks) == old(AsMap(chunks)) - {chunkID}
    {
      RemoveSpec(chunks, chunkID);
      chunks := Remove(chunks, chunkID);
    }

    method LoadChunks() returns (r: map<string, Chunk>)
      requires Valid()
      ensures r == AsMap(chunks)
    {
      r := map[];
      for i := 0 to |chunks|
        invariant r == AsMap(chunks[..i])
      {
        AsMapAppend(chunks, i);
        assert chunks[i] in chunks;
        r := r[chunks[i].value.chunkID := chunks[i].value];
      }
      assert chunks[..|chunks|] == chunks;
    }

    /** DeleteChunksByFileID: collect the matching keys, then delete them. Exactly the file's
        records go. */
    method DeleteChunksByFileID(fileID: string)
      requires Valid()
      modifies this`chunks
      ensures Valid()
      ensures AsMap(chunks) == map k | k in old(AsMap(chunks)) && old(AsMap(chunks))[k].fileID != fileID :: old(AsMap(chunks))[k]
    {
      ghost var before := AsMap(chunks);
      var toDelete: seq<string> := [];
      for i := 0 to |chunks|
        invariant chunks == old(chunks)
        invariant forall k :: k in toDelete <==> k in AsMap(chunks[..i]) && AsMap(chunks[..i])[k].fileID == fileID
      {
        AsMapAppend(chunks, i);
        NotYet(chunks, i);
        if chunks[i].value.fileID == fileID { toDelete := toDelete + [chunks[i].key]; }
      }
      assert chunks[..|chunks|] == chunks;
      for i := 0 to |toDelete|
        invariant Valid()
        invariant AsMap(chunks) == before - Elements(toDelete[..i])
      {
        RemoveSpec(chunks, toDelete[i]);
        chunks := Remove(chunks, toDelete[i]);
        assert Elements(toDelete[..i + 1]) == Elements(toDelete[..i]) + {toDelete[i]};
      }
      assert toDelete[..|toDelete|] == toDelete;
    }

    // ------------------------------------------------------------ speed tests

    method SaveSpeedTestResult(nodeID: string, time: string, result: SpeedTest)
      requires Valid()
      modifies this`speedTests
      ensures Valid() && AsMap(speedTests) == old(AsMap(speedTests))[nodeID + "_" + time := Some(result)]
    {
      PutSpec(speedTests, SpeedTestKey(nodeID, time), Some(result));
      speedTests := Put(speedTests, SpeedTestKey(nodeID, time), Some(result));
    }
  }

  lemma GroupedAppend(log: seq<Entry<Version>>, e: Entry<Version>)
    ensures VersionCatalog.Grouped(log + [e])
            == VersionCatalog.Grouped(log)[e.value.fileID := VersionCatalog.ListOf(VersionCatalog.Grouped(log), e.value.fileID) + [e.value]]
  {
    var a, b := VersionCatalog.Grouped(log + [e]),
                VersionCatalog.Grouped(log)[e.value.fileID := VersionCatalog.ListOf(VersionCatalog.Grouped(log), e.value.fileID) + [e.value]];
    assert VersionCatalog.FileIDs(log + [e]) == VersionCatalog.FileIDs(log) + {e.value.fileID} by {
      assert forall x :: x in log + [e] <==> x in log || x == e;
      assert e in log + [e];
    }
    forall f | f in a ensures a[f] == b[f] {
      VersionCatalog.OfFileAppend(log, e, f);
      VersionCatalog.OfFileAbsent(log, f);
    }
  }

  lemma NotYet<V>(b: seq<Entry<V>>, i: nat)
    requires Ordered(b) && i < |b|
    ensures b[i].key !in AsMap(b[..i])
  {
    AsMapKeys(b[..i]);
    forall j | 0 <= j < i ensures b[j].key != b[i].key { LessIrreflexive(b[i].key); }
  }
}
