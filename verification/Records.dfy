/** The records the server keeps in memory and persists. */
module Records {
  import opened Keys

  datatype Option<+T> = None | Some(value: T)

  datatype Result<+T> = Ok(value: T) | Err(error: string)

  type Byte = b: int | 0 <= b < 256
  type Bytes = seq<Byte>

  // -------------------------------------------------------------------- nodes

  datatype NodeStatus = Registered | Configured | Online | Offline | Maintenance

  /** A storage node. Times are nanoseconds; floating-point fields are exact reals. */
  datatype NodeRecord = NodeRecord(
    nodeID: string, ip: string, port: int, status: NodeStatus, storagePath: string,
    totalDiskSpace: int, allocatedSpace: int, usedSpace: int,
    cpu: real, memory: real, disk: real,
    upload: real, download: real, onlineRate: real,
    lastHeartbeat: int, lastSpeedTest: int, configuredAt: int, createdAt: int)

  /** "%s:%d" of a node's address and port. */
  function Address(node: NodeRecord): string {
    node.ip + ":" + PortText(node.port)
  }

  /** Addresses of nodes whose IPs contain no colon determine IP and port. */
  lemma AddressDetermines(a: NodeRecord, b: NodeRecord)
    requires ':' !in a.ip && ':' !in b.ip && Address(a) == Address(b)
    ensures a.ip == b.ip && a.port == b.port
  {
    var k, s, t := Address(a), PortText(a.port), PortText(b.port);
    assert k == a.ip + ":" + s && k == b.ip + ":" + t;
    assert forall i :: 0 <= i < |a.ip| ==> k[i] == a.ip[i];
    assert forall i :: 0 <= i < |b.ip| ==> k[i] == b.ip[i];
    assert k[|a.ip|] == ':' && k[|b.ip|] == ':';
    assert |a.ip| == |b.ip|;
    assert a.ip == k[..|a.ip|] && b.ip == k[..|b.ip|];
    assert s == k[|a.ip| + 1..] && t == k[|b.ip| + 1..];
    PortDetermines(a.port, b.port);
  }

  function PortText(port: int): string {
    if port < 0 then "-" + Decimal(-port) else Decimal(port)
  }

  lemma PortDetermines(p: int, q: int)
    requires PortText(p) == PortText(q)
    ensures p == q
  {
    var s, t := PortText(p), PortText(q);
    assert s[0] == '-' <==> p < 0;
    assert t[0] == '-' <==> q < 0;
    if p < 0 {
      assert s[1..] == Decimal(-p) && t[1..] == Decimal(-q);
      DecimalInjective(-p, -q);
    } else {
      DecimalInjective(p, q);
    }
  }

  datatype SpeedTest = SpeedTest(upload: real, download: real, latency: int, testTime: int)

  // ------------------------------------------------------------------- chunks

  /** `Unset` is the empty status of a record written by the upload handler. */
  datatype ChunkStatus = Pending | Success | Degraded | Unset

  datatype Chunk = Chunk(
    chunkID: string, fileID: string, size: int, hash: string,
    replicas: seq<string>, status: ChunkStatus)

  // ------------------------------------------------------- files and versions

  datatype FileRecord = FileRecord(
    fileID: string, name: string, path: string,
    latestVersion: int, versionCount: int, maxVersions: nat, size: int)

  datatype Version = Version(
    versionID: string, fileID: string, number: int, size: int, hash: string,
    chunkIDs: seq<string>, nodeIDs: seq<string>)
}
