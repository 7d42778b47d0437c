/** Reading a file back: the fallback over a chunk's replicas and the loop over a version's
    chunks. */
module Download {
  import opened Records
  import opened VersionCatalog

  /** The chunk files each storage node holds, by the node's address. */
  type Stores = map<string, map<string, Bytes>>

  function Held(stores: Stores, addr: string): map<string, Bytes> {
    if addr in stores then stores[addr] else map[]
  }

  /** What a download depends on: the node map, the nodes' files, and which addresses answer. */
  datatype Fabric = Fabric(nodes: map<string, NodeRecord>, stores: Stores, up: set<string>)

  /** The replica is registered, answers, and has the chunk's file. */
  predicate Serves(fabric: Fabric, nodeID: string, chunkID: string) {
    nodeID in fabric.nodes
    && Address(fabric.nodes[nodeID]) in fabric.up
    && chunkID in Held(fabric.stores, Address(fabric.nodes[nodeID]))
  }

  function ServedBytes(fabric: Fabric, nodeID: string, chunkID: string): Bytes
    requires Serves(fabric, nodeID, chunkID)
  {
    Held(fabric.stores, Address(fabric.nodes[nodeID]))[chunkID]
  }

  /** DownloadChunk: an unknown node, a dead connection and a 404 are all errors. */
  method DownloadChunk(fabric: Fabric, chunkID: string, nodeID: string) returns (r: Result<Bytes>)
    ensures r.Ok? <==> Serves(fabric, nodeID, chunkID)
    ensures r.Ok? <==> nodeID in fabric.nodes && Address(fabric.nodes[nodeID]) in fabric.up
                       && Address(fabric.nodes[nodeID]) in fabric.stores && chunkID in fabric.stores[Address(fabric.nodes[nodeID])]
    ensures r.Ok? ==> r.value == fabric.stores[Address(fabric.nodes[nodeID])][chunkID]
    ensures r.Ok? ==> r.value == ServedBytes(fabric, nodeID, chunkID)
  {
    if nodeID !in fabric.nodes { return Err("unknown node"); }
    var addr := Address(fabric.nodes[nodeID]);
    if addr !in fabric.up { return Err("no answer"); }
    if chunkID !in Held(fabric.stores, addr) { return Err("chunk not found"); }
    return Ok(Held(fabric.stores, addr)[chunkID]);
  }

  /** Replica `i`, named `from`, is the first one that serves the chunk. */
  ghost predicate FirstAt(fabric: Fabric, chunkID: string, nodeIDs: seq<string>, i: int, from: string) {
    0 <= i < |nodeIDs| && from == nodeIDs[i] && Serves(fabric, from, chunkID)
    && forall j :: 0 <= j < i ==> !Serves(fabric, nodeIDs[j], chunkID)
  }

  /** DownloadChunkWithFallback: the first listed replica that serves the chunk wins. */
  method DownloadChunkWithFallback(fabric: Fabric, chunkID: string, nodeIDs: seq<string>)
    returns (r: Result<Bytes>, from: string)
    ensures r.Ok? <==> exists n :: n in nodeIDs && Serves(fabric, n, chunkID)
    ensures r.Ok? ==> exists i :: 0 <= i < |nodeIDs| && FirstAt(fabric, chunkID, nodeIDs, i, from)
    ensures r.Ok? ==> Serves(fabric, from, chunkID) && r.value == ServedBytes(fabric, from, chunkID)
  {
    var lastErr := "";
    for i := 0 to |nodeIDs|
      invariant forall j :: 0 <= j < i ==> !Serves(fabric, nodeIDs[j], chunkID)
    {
      var attempt := DownloadChunk(fabric, chunkID, nodeIDs[i]);
      if attempt.Ok? {
        assert FirstAt(fabric, chunkID, nodeIDs, i, nodeIDs[i]);
        return attempt, nodeIDs[i];
      }
      lastErr := attempt.error;
    }
    return Err(lastErr), "";
  }

  // ------------------------------------------------------------- specification

  /** The chunk is known to the server and some listed replica serves it. */
  ghost predicate Available(chunks: map<string, Chunk>, fabric: Fabric, chunkID: string) {
    chunkID in chunks && exists n :: n in chunks[chunkID].replicas && Serves(fabric, n, chunkID)
  }

  function FirstServing(fabric: Fabric, chunkID: string, nodeIDs: seq<string>): Option<Bytes> {
    if nodeIDs == [] then None
    else if Serves(fabric, nodeIDs[0], chunkID) then Some(ServedBytes(fabric, nodeIDs[0], chunkID))
    else FirstServing(fabric, chunkID, nodeIDs[1..])
  }

  function ReadChunk(chunks: map<string, Chunk>, fabric: Fabric, chunkID: string): Option<Bytes> {
    if chunkID in chunks then FirstServing(fabric, chunkID, chunks[chunkID].replicas) else None
  }

  /** The concatenation of the chunks, or nothing when one of them cannot be read. */
  function ReadAll(chunks: map<string, Chunk>, fabric: Fabric, ids: seq<string>): Option<Bytes> {
    if ids == [] then Some([])
    else
      match (ReadAll(chunks, fabric, ids[..|ids| - 1]), ReadChunk(chunks, fabric, ids[|ids| - 1]))
      case (Some(front), Some(last)) => Some(front + last)
      case _ => None
  }

  lemma {:induction false} FirstServingSpec(fabric: Fabric, chunkID: string, nodeIDs: seq<string>)
    ensures FirstServing(fabric, chunkID, nodeIDs).Some? <==> exists n :: n in nodeIDs && Serves(fabric, n, chunkID)
    ensures FirstServing(fabric, chunkID, nodeIDs).Some? ==>
              exists n :: n in nodeIDs && Serves(fabric, n, chunkID)
                && FirstServing(fabric, chunkID, nodeIDs).value == ServedBytes(fabric, n, chunkID)
  {
    if nodeIDs != [] {
      assert nodeIDs == [nodeIDs[0]] + nodeIDs[1..];
      if !Serves(fabric, nodeIDs[0], chunkID) { FirstServingSpec(fabric, chunkID, nodeIDs[1..]); }
    }
  }

  lemma {:induction false} FirstServingAt(fabric: Fabric, chunkID: string, nodeIDs: seq<string>, i: nat)
    requires i < |nodeIDs| && Serves(fabric, nodeIDs[i], chunkID)
    requires forall j :: 0 <= j < i ==> !Serves(fabric, nodeIDs[j], chunkID)
    ensures FirstServing(fabric, chunkID, nodeIDs) == Some(ServedBytes(fabric, nodeIDs[i], chunkID))
  {
    if i > 0 { FirstServingAt(fabric, chunkID, nodeIDs[1..], i - 1); }
  }

  /** A read succeeds exactly when every chunk is available. */
  lemma {:induction false} ReadAllSucceeds(chunks: map<string, Chunk>, fabric: Fabric, ids: seq<string>)
    ensures ReadAll(chunks, fabric, ids).Some? <==> forall id :: id in ids ==> Available(chunks, fabric, id)
  {
    if ids != [] {
      var front, last := ids[..|ids| - 1], ids[|ids| - 1];
      assert ids == front + [last];
      assert forall id :: id in ids <==> id in front || id == last;
      ReadAllSucceeds(chunks, fabric, front);
      assert ReadChunk(chunks, fabric, last).Some? <==> Available(chunks, fabric, last) by {
        if last in chunks { FirstServingSpec(fabric, last, chunks[last].replicas); }
      }
    }
  }

  // ------------------------------------------------------------- the handler

  /** DownloadFromNode. */
  method DownloadFromNode(chunks: map<string, Chunk>, fabric: Fabric, chunkID: string) returns (r: Result<Bytes>)
    ensures r.Ok? <==> ReadChunk(chunks, fabric, chunkID).Some?
    ensures r.Ok? ==> ReadChunk(chunks, fabric, chunkID) == Some(r.value)
  {
    if chunkID !in chunks { return Err("no such chunk"); }
    var replicas := chunks[chunkID].replicas;
    FirstServingSpec(fabric, chunkID, replicas);
    if replicas == [] { return Err("no replicas"); }
    var from;
    r, from := DownloadChunkWithFallback(fabric, chunkID, replicas);
    if r.Ok? {
      ghost var i :| 0 <= i < |replicas| && FirstAt(fabric, chunkID, replicas, i, from);
      FirstServingAt(fabric, chunkID, replicas, i);
    }
  }

  /** downloadFile as a function: choose the version, read its chunks. */
  function Target(cat: Catalog, fileID: string, number: int): Option<Version> {
    if fileID in cat.files then Choose(cat.files[fileID], ListOf(cat.versions, fileID), number) else None
  }

  function Read(cat: Catalog, chunks: map<string, Chunk>, fabric: Fabric, fileID: string, number: int): Option<Bytes> {
    match Target(cat, fileID, number)
    case None => None
    case Some(v) => ReadAll(chunks, fabric, v.chunkIDs)
  }

  /** downloadFile. */
  method DownloadFile(cat: Catalog, chunks: map<string, Chunk>, fabric: Fabric, fileID: string, number: int)
    returns (r: Result<Bytes>)
    ensures r.Ok? <==> Read(cat, chunks, fabric, fileID, number).Some?
    ensures r.Ok? ==> Read(cat, chunks, fabric, fileID, number) == Some(r.value)
  {
    if fileID !in cat.files { return Err("file not found"); }
    var file := cat.files[fileID];
    var versions := ListOf(cat.versions, fileID);
    if |versions| == 0 { return Err("no versions"); }
    var target: Option<Version> := None;
    if number == 0 || number == file.latestVersion {
      target := Some(versions[|versions| - 1]);
    } else {
      target := FindVersion(versions, number);
    }
    if target.None? { return Err("version not found"); }
    var ids := target.value.chunkIDs;
    var data: Bytes := [];
    for i := 0 to |ids|
      invariant ReadAll(chunks, fabric, ids[..i]) == Some(data)
    {
      assert ids[..i + 1][..i] == ids[..i] && ids[..i + 1][i] == ids[i];
      var piece := DownloadFromNode(chunks, fabric, ids[i]);
      if piece.Err? {
        ReadAllSucceeds(chunks, fabric, ids);
        if ids[i] in chunks { FirstServingSpec(fabric, ids[i], chunks[ids[i]].replicas); }
        assert !Available(chunks, fabric, ids[i]);
        return Err(piece.error);
      }
      data := data + piece.value;
    }
    assert ids[..|ids|] == ids;
    return Ok(data);
  }

  /** The search loop of the handlers. */
  method FindVersion(versions: seq<Version>, number: int) returns (target: Option<Version>)
    ensures target == Find(versions, number)
  {
    for i := 0 to |versions|
      invariant Find(versions, number) == Find(versions[i..], number)
    {
      if versions[i].number == number { return Some(versions[i]); }
      assert versions[i..][1..] == versions[i + 1..];
    }
    return None;
  }
}
