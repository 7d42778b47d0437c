/** Replication: the storage node's own handlers, the source node's parallel sends, and the
    server's retried request. */
module Replication {
  import opened Sequences
  import opened Records
  import opened Download
  import opened StorageManagement
  import opened ChunkUpload
  import S = StorageProtocol
  import Cluster
  import ClusterTheorems
  import opened FaultTolerance

  // -------------------------------------------------------------- a storage node

  datatype Request =
    | Upload(chunkID: string, data: Bytes, disk: Disk)
    | Download(chunkID: string, readable: bool)
    | Delete(chunkID: string, removable: bool)

  /** What becomes of an upload on its way to the disk. A failed write may leave part of it in "temp". */
  datatype Disk = Fine | BodyUnread | WriteFails(partial: Bytes) | RenameFails

  /** A node's two directories, and its answer to a request: a status code and a body. */
  datatype Files = Files(chunks: map<string, Bytes>, temp: map<string, Bytes>)

  datatype Answer = Answer(status: int, body: Bytes)

  class StorageEngine {
    var chunks: map<string, Bytes>
    var temp: map<string, Bytes>

    function View(): Files
      reads this
    {
      Files(chunks, temp)
    }

    constructor ()
      ensures View() == Files(map[], map[])
    {
      chunks, temp := map[], map[];
    }

    /** handleUpload: write to a temporary file, then rename it. For uploads of one chunk that overlap in
        time, see ChunkFiles. */
    method HandleUpload(chunkID: string, data: Bytes, disk: Disk) returns (answer: Answer)
      modifies this
      ensures (View(), answer) == Serve(old(View()), Upload(chunkID, data, disk))
      ensures chunks == if answer.status == 200 then old(chunks)[chunkID := data] else old(chunks)
      ensures answer.status == if chunkID == "" then 400 else if disk.Fine? then 200 else 500
      ensures temp == if chunkID == "" || disk.BodyUnread? then old(temp)
                      else if disk.WriteFails? then old(temp)[chunkID := disk.partial]
                      else if disk.RenameFails? then old(temp)[chunkID := data]
                      else old(temp) - {chunkID}
    {
      if chunkID == "" { return Answer(400, []); }
      if disk.BodyUnread? { return Answer(500, []); }
      if disk.WriteFails? {
        temp := temp[chunkID := disk.partial];
        return Answer(500, []);
      }
      temp := temp[chunkID := data];
      if disk.RenameFails? { return Answer(500, []); }
      chunks, temp := chunks[chunkID := temp[chunkID]], temp - {chunkID};
      assert temp == old(temp) - {chunkID};
      return Answer(200, []);
    }

    /** handleDownload. */
    method HandleDownload(chunkID: string, readable: bool) returns (answer: Answer)
      ensures (View(), answer) == Serve(View(), Download(chunkID, readable))
      ensures answer.status == 200 <==> chunkID != "" && chunkID in chunks && readable
      ensures answer.body == if answer.status == 200 then chunks[chunkID] else []
    {
      if chunkID == "" { return Answer(400, []); }
      if chunkID !in chunks { return Answer(404, []); }
      if !readable { return Answer(500, []); }
      return Answer(200, chunks[chunkID]);
    }

    /** handleDelete. */
    method HandleDelete(chunkID: string, removable: bool) returns (answer: Answer)
      modifies this
      ensures (View(), answer) == Serve(old(View()), Delete(chunkID, removable))
      ensures answer.status == 200 <==> chunkID != "" && chunkID in old(chunks) && removable
      ensures chunks == if answer.status == 200 then old(chunks) - {chunkID} else old(chunks)
    {
      if chunkID == "" { return Answer(400, []); }
      if chunkID !in chunks { return Answer(404, []); }
      if !removable { return Answer(500, []); }
      chunks := chunks - {chunkID};
      return Answer(200, []);
    }
  }

  function Serve(f: Files, r: Request): (Files, Answer) {
    if r.chunkID == "" then (f, Answer(400, []))
    else
      match r
      case Upload(id, data, Fine) => (Files(f.chunks[id := data], f.temp - {id}), Answer(200, []))
      case Upload(id, data, BodyUnread) => (f, Answer(500, []))
      case Upload(id, data, WriteFails(partial)) => (f.(temp := f.temp[id := partial]), Answer(500, []))
      case Upload(id, data, RenameFails) => (f.(temp := f.temp[id := data]), Answer(500, []))
      case Download(id, readable) =>
        (f, if id !in f.chunks then Answer(404, []) else if readable then Answer(200, f.chunks[id]) else Answer(500, []))
      case Delete(id, removable) =>
        if id !in f.chunks then (f, Answer(404, []))
        else if removable then (f.(chunks := f.chunks - {id}), Answer(200, []))
        else (f, Answer(500, []))
  }

  function ServeAll(f: Files, run: seq<Request>): Files
    decreases |run|
  {
    if run == [] then f else Serve(ServeAll(f, run[..|run| - 1]), run[|run| - 1]).0
  }

  /** The answer to the last request of a run. */
  function LastAnswer(f: Files, run: seq<Request>): Answer
    requires run != []
  {
    Serve(ServeAll(f, run[..|run| - 1]), run[|run| - 1]).1
  }

  /** The body of the last acknowledged upload of a chunk that no acknowledged delete follows. */
  function LastWrite(f: Files, run: seq<Request>, id: string): Option<Bytes>
    decreases |run|
  {
    if run == [] then None
    else
      var last := run[|run| - 1];
      if last.chunkID == id && !last.Download? && LastAnswer(f, run).status == 200
      then (if last.Upload? then Some(last.data) else None)
      else LastWrite(f, run[..|run| - 1], id)
  }

  /** A node that serves its requests one at a time is a register per chunk: whatever fails on its
      disk, it holds exactly what the last acknowledged request about the chunk left. */
  lemma {:induction false} NodeHoldsLastWrite(run: seq<Request>, id: string)
    ensures var start := Files(map[], map[]);
            LastWrite(start, run, id) == (if id in ServeAll(start, run).chunks then Some(ServeAll(start, run).chunks[id]) else None)
    decreases |run|
  {
    if run != [] { NodeHoldsLastWrite(run[..|run| - 1], id); }
  }

  /** What a node answers, after any run: a download returns the bytes of the last acknowledged upload that
      no acknowledged delete follows, and every request says whether there is such an upload and whether the
      disk did its part. */
  lemma NodeAnswers(run: seq<Request>, id: string, data: Bytes, partial: Bytes)
    requires id != ""
    ensures var start := Files(map[], map[]);
            var held := LastWrite(start, run, id);
            && LastAnswer(start, run + [Download(id, true)])
               == (match held case Some(d) => Answer(200, d) case None => Answer(404, []))
            && LastAnswer(start, run + [Download(id, false)]) == Answer(if held.Some? then 500 else 404, [])
            && LastAnswer(start, run + [Delete(id, true)]) == Answer(if held.Some? then 200 else 404, [])
            && LastAnswer(start, run + [Delete(id, false)]) == Answer(if held.Some? then 500 else 404, [])
            && LastAnswer(start, run + [Upload(id, data, Fine)]) == Answer(200, [])
            && LastAnswer(start, run + [Upload(id, data, BodyUnread)]) == Answer(500, [])
            && LastAnswer(start, run + [Upload(id, data, WriteFails(partial))]) == Answer(500, [])
            && LastAnswer(start, run + [Upload(id, data, RenameFails)]) == Answer(500, [])
  {
    NodeHoldsLastWrite(run, id);
    forall r: Request ensures (run + [r])[..|run + [r]| - 1] == run && (run + [r])[|run + [r]| - 1] == r {}
    hide LastWrite, ServeAll;
  }

  /** A request without a chunk ID is refused and changes nothing; and no request touches another chunk. */
  lemma RequestIsLocal(f: Files, r: Request, other: string)
    ensures r.chunkID == "" ==> Serve(f, r) == (f, Answer(400, []))
    ensures other != r.chunkID ==>
              var f' := Serve(f, r).0;
              && (other in f'.chunks <==> other in f.chunks) && (other in f.chunks ==> f'.chunks[other] == f.chunks[other])
              && (other in f'.temp <==> other in f.temp) && (other in f.temp ==> f'.temp[other] == f.temp[other])
  {
  }

  // ------------------------------------------------------- sends to the targets

  /** One attempt to send the chunk to a target. A malformed address ends the send at once; an
      unanswered or refused PUT is retried, and may have been stored. */
  datatype Delivery = Malformed | Lost(stored: bool) | Acknowledged

  const ATTEMPTS: nat := 3

  /** What the send to target i amounts to, attempts k and later. */
  datatype Outcome = Outcome(acked: bool, stored: bool)

  function Send(world: (int, int) -> Delivery, i: nat, k: nat): Outcome
    decreases ATTEMPTS - k
  {
    if k >= ATTEMPTS then Outcome(false, false)
    else
      match world(i, k)
      case Malformed => Outcome(false, false)
      case Acknowledged => Outcome(true, true)
      case Lost(stored) => var rest := Send(world, i, k + 1); Outcome(rest.acked, stored || rest.stored)
  }

  /** A send is acknowledged exactly when one of its first three attempts is, with nothing but
      lost attempts before it; and an acknowledged send has stored the data. */
  lemma SendSpec(world: (int, int) -> Delivery, i: nat)
    ensures Send(world, i, 0).stored
            <==> exists k: nat :: k < 3 && Arrives(world(i, k)) && forall j :: 0 <= j < k ==> world(i, j).Lost?
    ensures Send(world, i, 0).acked
            <==> exists k: nat :: k < 3 && world(i, k).Acknowledged? && forall j :: 0 <= j < k ==> world(i, j).Lost?
    ensures Send(world, i, 0).acked ==> Send(world, i, 0).stored
  {
    var a, b, c := world(i, 0), world(i, 1), world(i, 2);
    assert Send(world, i, 2).acked <==> c.Acknowledged?;
    assert Send(world, i, 1).acked <==> b.Acknowledged? || (b.Lost? && c.Acknowledged?);
    assert Send(world, i, 2).stored <==> Arrives(c);
    assert Send(world, i, 1).stored <==> Arrives(b) || (b.Lost? && Arrives(c));
    assert Send(world, i, 0).stored <==> Arrives(a) || (a.Lost? && (Arrives(b) || (b.Lost? && Arrives(c))));
    assert Send(world, i, 0).acked <==> a.Acknowledged? || (a.Lost? && (b.Acknowledged? || (b.Lost? && c.Acknowledged?)));
  }

  /** The goroutines' progress: attempts made, whether one of them was stored, who was acknowledged,
      and the addresses in the order their data was stored. */
  datatype Sending = Sending(tries: seq<nat>, stored: seq<bool>, running: set<nat>, acked: set<nat>, order: seq<string>)

  /** A running goroutine has only lost attempts behind it; a finished one has its final outcome. */
  ghost predicate SenderOk(g: Sending, i: nat, world: (int, int) -> Delivery)
    requires i < |g.tries| && i < |g.stored|
  {
    if i in g.running then
      i !in g.acked
      && Send(world, i, 0) == Outcome(Send(world, i, g.tries[i]).acked, g.stored[i] || Send(world, i, g.tries[i]).stored)
    else Send(world, i, 0) == Outcome(i in g.acked, g.stored[i])
  }

  ghost predicate SendingOk(g: Sending, targets: seq<string>, world: (int, int) -> Delivery) {
    && |g.tries| == |g.stored| == |targets|
    && (forall i: nat :: i in g.running || i in g.acked ==> i < |targets|)
    && (forall i: nat :: i < |targets| ==> SenderOk(g, i, world))
    && OrderOk(g, targets)
  }

  ghost predicate OrderOk(g: Sending, targets: seq<string>)
    requires |g.stored| == |targets|
  {
    forall a :: a in g.order <==> exists i: nat :: i < |targets| && targets[i] == a && g.stored[i]
  }

  /** Goroutine i makes one more attempt, or gives up. */
  function Tried(g: Sending, i: nat, targets: seq<string>, world: (int, int) -> Delivery): Sending
    requires i < |g.tries| == |g.stored| == |targets|
  {
    if g.tries[i] >= ATTEMPTS then g.(running := g.running - {i})
    else
      match world(i, g.tries[i])
      case Malformed => g.(running := g.running - {i})
      case Acknowledged =>
        Sending(g.tries, g.stored[i := true], g.running - {i}, g.acked + {i}, g.order + [targets[i]])
      case Lost(stored) =>
        g.(tries := g.tries[i := g.tries[i] + 1],
           stored := g.stored[i := g.stored[i] || stored],
           order := if stored then g.order + [targets[i]] else g.order)
  }

  lemma AttemptKeeps(g: Sending, i: nat, targets: seq<string>, world: (int, int) -> Delivery)
    requires SendingOk(g, targets, world) && i in g.running
    ensures SendingOk(Tried(g, i, targets, world), targets, world)
  {
    var g' := Tried(g, i, targets, world);
    forall j: nat | j < |targets| ensures SenderOk(g', j, world) { assert SenderOk(g, j, world); }
    assert OrderOk(g', targets) by {
      forall a ensures a in g'.order <==> exists j: nat :: j < |targets| && targets[j] == a && g'.stored[j] {
        if a in g.order {
          var j: nat :| j < |targets| && targets[j] == a && g.stored[j];
          assert g'.stored[j];
        }
        if g'.stored[i] && !g.stored[i] { assert targets[i] in g'.order; }
      }
    }
  }

  lemma AttemptEffect(g: Sending, i: nat, targets: seq<string>, world: (int, int) -> Delivery)
    requires SendingOk(g, targets, world) && i in g.running
    ensures var g' := Tried(g, i, targets, world);
            var made := g.tries[i] < ATTEMPTS;
            && SendingOk(g', targets, world)
            && |g'.acked| == |g.acked| + (if made && world(i, g.tries[i]).Acknowledged? then 1 else 0)
            && g'.order == (if made && Arrives(world(i, g.tries[i])) then g.order + [targets[i]] else g.order)
            && (Budget(g'.tries, ATTEMPTS) < Budget(g.tries, ATTEMPTS)
                || (g'.tries == g.tries && |g'.running| < |g.running|))
  {
    AttemptKeeps(g, i, targets, world);
    assert SenderOk(g, i, world);
    hide SendingOk, SenderOk, Budget;
    if g.tries[i] < ATTEMPTS { BudgetStep(g.tries, ATTEMPTS, i); }
  }

  /** Which targets acknowledge, and which addresses end up with the data. */
  ghost function AckedTargets(targets: seq<string>, world: (int, int) -> Delivery): set<nat> {
    set i: nat | i < |targets| && Send(world, i, 0).acked
  }

  ghost predicate StoredAt(targets: seq<string>, world: (int, int) -> Delivery, addr: string) {
    exists i: nat :: i < |targets| && targets[i] == addr && Send(world, i, 0).stored
  }

  /** The data was stored, in some order, at exactly the addresses its sends reach. */
  ghost predicate Spread(stores: Stores, stores': Stores, chunkID: string, data: Bytes, targets: seq<string>, world: (int, int) -> Delivery) {
    exists order :: StoredInOrder(stores, stores', chunkID, data, targets, world, order)
  }

  ghost predicate StoredInOrder(stores: Stores, stores': Stores, chunkID: string, data: Bytes, targets: seq<string>,
                                world: (int, int) -> Delivery, order: seq<string>)
  {
    stores' == StoreAll(stores, order, chunkID, data) && forall a :: a in order <==> StoredAt(targets, world, a)
  }

  lemma Finished(g: Sending, targets: seq<string>, world: (int, int) -> Delivery)
    requires SendingOk(g, targets, world) && g.running == {}
    ensures g.acked == AckedTargets(targets, world)
    ensures forall a :: a in g.order <==> StoredAt(targets, world, a)
  {
    forall i: nat | i < |targets| ensures Send(world, i, 0) == Outcome(i in g.acked, g.stored[i]) { assert SenderOk(g, i, world); }
  }

  lemma Started(g: Sending, targets: seq<string>, world: (int, int) -> Delivery)
    requires |g.tries| == |g.stored| == |targets| && g.acked == {} && g.order == []
    requires forall i: nat :: i in g.running <==> i < |targets|
    requires forall i: nat :: i < |targets| ==> g.tries[i] == 0 && !g.stored[i]
    ensures SendingOk(g, targets, world)
  {
  }

  lemma NothingStored(stores: Stores, chunkID: string, data: Bytes)
    ensures StoreAll(stores, [], chunkID, data) == stores
  {
  }

  lemma StoreOneMore(stores: Stores, order: seq<string>, addr: string, chunkID: string, data: Bytes)
    ensures StoreAll(stores, order + [addr], chunkID, data) == Cluster.Store(StoreAll(stores, order, chunkID, data), addr, chunkID, data)
  {
    assert (order + [addr])[..|order|] == order;
  }

  predicate Arrives(d: Delivery) { d.Acknowledged? || (d.Lost? && d.stored) }

  /** HandleReplicate on the node at `self`. The scheduler may run the sending goroutines in any
      order, one attempt at a time; the count it answers and the nodes that end up with the data
      are the same for every schedule. */
  method HandleReplicate(stores: Stores, self: string, chunkID: string, targets: seq<string>, world: (int, int) -> Delivery)
    returns (answer: Option<int>, stores': Stores)
    ensures chunkID !in Held(stores, self) ==> answer.None? && stores' == stores
    ensures chunkID in Held(stores, self) ==>
              && answer == Some(|AckedTargets(targets, world)|)
              && Spread(stores, stores', chunkID, Held(stores, self)[chunkID], targets, world)
  {
    if chunkID !in Held(stores, self) { return None, stores; }
    var data := Held(stores, self)[chunkID];
    var successCount := 0;
    stores' := stores;
    hide StoreAll, SenderOk, OrderOk, Send, Budget, Tried, AckedTargets, StoredAt, Held;
    var n := |targets|;
    var running: set<nat> := {};
    for i := 0 to n
      invariant forall j: nat :: j in running <==> j < i
    {
      running := running + {i};
    }
    var g := Sending(seq(n, _ => 0), seq(n, _ => false), running, {}, []);
    Started(g, targets, world);
    NothingStored(stores, chunkID, data);
    while g.running != {}
      invariant SendingOk(g, targets, world) && successCount == |g.acked|
      invariant stores' == StoreAll(stores, g.order, chunkID, data)
      decreases Budget(g.tries, ATTEMPTS), |g.running|
    {
      var i: nat :| i in g.running;
      AttemptEffect(g, i, targets, world);
      if g.tries[i] < ATTEMPTS {
        if Arrives(world(i, g.tries[i])) {
          StoreOneMore(stores, g.order, targets[i], chunkID, data);
          stores' := Cluster.Store(stores', targets[i], chunkID, data);
        }
        if world(i, g.tries[i]).Acknowledged? { successCount := successCount + 1; }
      }
      g := Tried(g, i, targets, world);
    }
    Finished(g, targets, world);
    assert StoredInOrder(stores, stores', chunkID, data, targets, world, g.order);
    return Some(successCount), stores';
  }

  // ----------------------------------------------------- the server's request

  /** One request to the source node: it may not get there, and its answer may not come back. */
  datatype Round = Unreached | Ran(world: (int, int) -> Delivery, readable: bool)

  /** The source held the chunk, answered, and reported at least one success. */
  ghost predicate Works(round: Round, addrs: seq<string>) {
    round.Ran? && round.readable && AckedTargets(addrs, round.world) != {}
  }

  /** One of the first three attempts to send to target `i` is acknowledged, after only lost ones. */
  ghost predicate AckedWithin(world: (int, int) -> Delivery, i: nat) {
    exists k: nat :: k < 3 && world(i, k).Acknowledged? && forall j :: 0 <= j < k ==> world(i, j).Lost?
  }

  /** A round works exactly when the request got there, the answer came back, and one of three attempts to
      send to some target was acknowledged, with only lost ones before it. */
  lemma WorksIff(round: Round, addrs: seq<string>)
    ensures Works(round, addrs)
            <==> round.Ran? && round.readable && exists i: nat :: i < |addrs| && AckedWithin(round.world, i)
  {
    if round.Ran? {
      forall i: nat ensures i in AckedTargets(addrs, round.world) <==> i < |addrs| && AckedWithin(round.world, i) {
        SendSpec(round.world, i);
      }
      hide Send, AckedTargets, AckedWithin;
      if i: nat :| i < |addrs| && AckedWithin(round.world, i) {
        assert i in AckedTargets(addrs, round.world);
      }
    }
  }

  lemma {:induction false} KnownAddressesFrom(nodes: map<string, NodeRecord>, ids: seq<string>, addr: string)
    requires addr in KnownAddresses(nodes, ids)
    ensures exists t :: t in ids && t in nodes && Address(nodes[t]) == addr
  {
    if ids[0] !in nodes || Address(nodes[ids[0]]) != addr {
      KnownAddressesFrom(nodes, ids[1..], addr);
    }
  }

  lemma {:induction false} StoreAllConcat(stores: Stores, a: seq<string>, b: seq<string>, chunkID: string, data: Bytes)
    ensures StoreAll(stores, a + b, chunkID, data) == StoreAll(StoreAll(stores, a, chunkID, data), b, chunkID, data)
    decreases |b|
  {
    if b == [] {
      assert a + b == a;
    } else {
      var front, last := b[..|b| - 1], b[|b| - 1];
      StoreAllConcat(stores, a, front, chunkID, data);
      assert a + b == (a + front) + [last];
      StoreOneMore(stores, a + front, last, chunkID, data);
    }
  }

  /** The copies one or more rounds have made: all at target addresses, all with the source's bytes. */
  ghost predicate Copied(stores: Stores, stores': Stores, src: string, chunkID: string, addrs: seq<string>, order: seq<string>) {
    if chunkID in Held(stores, src) then
      && stores' == StoreAll(stores, order, chunkID, Held(stores, src)[chunkID])
      && forall a :: a in order ==> a in addrs
    else stores' == stores
  }

  /** After any copies, the source still holds the chunk, unchanged. */
  lemma SourceKeeps(stores: Stores, stores': Stores, src: string, chunkID: string, addrs: seq<string>, order: seq<string>)
    requires Copied(stores, stores', src, chunkID, addrs, order)
    ensures chunkID in Held(stores', src) <==> chunkID in Held(stores, src)
    ensures chunkID in Held(stores, src) ==> Held(stores', src)[chunkID] == Held(stores, src)[chunkID]
  {
    if chunkID in Held(stores, src) {
      StoreAllSpec(stores, order, chunkID, Held(stores, src)[chunkID], src, chunkID);
    }
  }

  lemma MoreCopies(stores: Stores, s1: Stores, s2: Stores, src: string, chunkID: string, addrs: seq<string>, o1: seq<string>, o2: seq<string>)
    requires Copied(stores, s1, src, chunkID, addrs, o1) && Copied(s1, s2, src, chunkID, addrs, o2)
    ensures Copied(stores, s2, src, chunkID, addrs, o1 + o2)
  {
    SourceKeeps(stores, s1, src, chunkID, addrs, o1);
    if chunkID in Held(stores, src) {
      StoreAllConcat(stores, o1, o2, chunkID, Held(stores, src)[chunkID]);
    }
  }

  /** Some registered target holds the source's bytes. */
  ghost predicate TargetHolds(nodes: map<string, NodeRecord>, stores: Stores, targets: seq<string>, chunkID: string, data: Bytes) {
    exists t :: t in targets && t in nodes && chunkID in Held(stores, Address(nodes[t])) && Held(stores, Address(nodes[t]))[chunkID] == data
  }

  /** The request is the node's handler, if it gets there. */
  method RequestOnce(stores: Stores, src: string, chunkID: string, addrs: seq<string>, round: Round)
    returns (ok: bool, stores': Stores, ghost order: seq<string>)
    ensures ok <==> chunkID in Held(stores, src) && Works(round, addrs)
    ensures Copied(stores, stores', src, chunkID, addrs, order)
    ensures ok ==> exists i: nat :: i < |addrs| && addrs[i] in order
  {
    hide StoreAll, Send, Held;
    ok, stores', order := false, stores, [];
    NothingCopied(stores, src, chunkID, addrs);
    if round.Unreached? { return; }
    var answer;
    answer, stores' := HandleReplicate(stores, src, chunkID, addrs, round.world);
    if answer.Some? {
      order :| StoredInOrder(stores, stores', chunkID, Held(stores, src)[chunkID], addrs, round.world, order);
    }
    if !round.readable || answer.None? { return; }
    ok := answer.value > 0;
    if ok {
      ghost var i :| i in AckedTargets(addrs, round.world);
      SendSpec(round.world, i);
      assert StoredAt(addrs, round.world, addrs[i]);
    }
  }

  lemma NothingCopied(stores: Stores, src: string, chunkID: string, addrs: seq<string>)
    ensures Copied(stores, stores, src, chunkID, addrs, [])
  {
  }

  /** ReplicateChunk. It returns no error exactly when the source is registered and holds the chunk,
      some target is registered, and in one of three rounds the request and its answer got through
      with at least one target acknowledging. Then a target holds the source's bytes. Nothing is
      ever stored anywhere but copies of the source's bytes at the targets. */
  method ReplicateChunk(nodes: map<string, NodeRecord>, stores: Stores, chunkID: string, source: string, targets: seq<string>,
                        rounds: int -> Round)
    returns (err: Option<string>, stores': Stores, ghost order: seq<string>)
    ensures source !in nodes || KnownAddresses(nodes, targets) == [] ==> err.Some? && stores' == stores
    ensures source in nodes ==>
              && Copied(stores, stores', Address(nodes[source]), chunkID, KnownAddresses(nodes, targets), order)
              && (err.None? <==> chunkID in Held(stores, Address(nodes[source]))
                                 && exists r: nat :: r < 3 && Works(rounds(r), KnownAddresses(nodes, targets)))
    ensures err.None? ==>
              source in nodes && chunkID in Held(stores, Address(nodes[source]))
              && TargetHolds(nodes, stores', targets, chunkID, Held(stores, Address(nodes[source]))[chunkID])
  {
    stores', order := stores, [];
    if source !in nodes { return Some("unknown source"), stores, []; }
    var src := Address(nodes[source]);
    var addrs := ResolveAddresses(nodes, targets);
    NothingCopied(stores, src, chunkID, addrs);
    hide KnownAddresses, Copied, Held, Works, TargetHolds;
    if |addrs| == 0 {
      NoTargetsWork(rounds, addrs);
      return Some("no target"), stores, [];
    }
    for retry := 0 to ATTEMPTS
      invariant Copied(stores, stores', src, chunkID, addrs, order)
      invariant forall r: nat :: r < retry ==> !(chunkID in Held(stores, src) && Works(rounds(r), addrs))
    {
      SourceKeeps(stores, stores', src, chunkID, addrs, order);
      ghost var s1, o1 := stores', order;
      var ok;
      ok, stores', order := RequestOnce(stores', src, chunkID, addrs, rounds(retry));
      ghost var o2 := order;
      MoreCopies(stores, s1, stores', src, chunkID, addrs, o1, o2);
      order := o1 + o2;
      if ok {
        ghost var i: nat :| i < |addrs| && addrs[i] in o2;
        assert addrs[i] in order;
        CopyHeld(nodes, stores, stores', src, chunkID, targets, order, addrs[i]);
        return None, stores', order;
      }
    }
    err := Some("replication failed");
  }

  lemma NoTargetsWork(rounds: int -> Round, addrs: seq<string>)
    requires addrs == []
    ensures forall r: nat :: !Works(rounds(r), addrs)
  {
    forall r: nat ensures !Works(rounds(r), addrs) {
      if rounds(r).Ran? { assert AckedTargets(addrs, rounds(r).world) == {}; }
    }
  }

  lemma CopyHeld(nodes: map<string, NodeRecord>, stores: Stores, stores': Stores, src: string, chunkID: string,
                 targets: seq<string>, order: seq<string>, addr: string)
    requires Copied(stores, stores', src, chunkID, KnownAddresses(nodes, targets), order)
    requires chunkID in Held(stores, src) && addr in order
    ensures TargetHolds(nodes, stores', targets, chunkID, Held(stores, src)[chunkID])
  {
    StoreAllSpec(stores, order, chunkID, Held(stores, src)[chunkID], addr, chunkID);
    hide StoreAll, KnownAddresses;
    KnownAddressesFrom(nodes, targets, addr);
  }

  // ------------------------------------------------------------------ theorems

  /** A round that works always stores the chunk at another address than the source's if and only if
      no registered target has the source's address. Otherwise the source may end up sending the
      chunk to itself and reporting success. */
  lemma SecondCopyIff(nodes: map<string, NodeRecord>, source: string, targets: seq<string>)
    requires source in nodes
    ensures var src, addrs := Address(nodes[source]), KnownAddresses(nodes, targets);
            (forall world :: Works(Ran(world, true), addrs) ==> exists a :: a != src && StoredAt(addrs, world, a))
            <==> src !in addrs
  {
    var src, addrs := Address(nodes[source]), KnownAddresses(nodes, targets);
    hide KnownAddresses, Address;
    if src in addrs {
      var i :| 0 <= i < |addrs| && addrs[i] == src;
      var onlySelf: (int, int) -> Delivery := (j, k) => if j == i then Acknowledged else Malformed;
      assert i in AckedTargets(addrs, onlySelf);
      assert Works(Ran(onlySelf, true), addrs);
      forall a | StoredAt(addrs, onlySelf, a) ensures a == src { }
    } else {
      forall world | Works(Ran(world, true), addrs) ensures exists a :: a != src && StoredAt(addrs, world, a) {
        var i :| i in AckedTargets(addrs, world);
        SendSpec(world, i);
        assert StoredAt(addrs, world, addrs[i]);
      }
    }
  }

  /** No target has the source's address when different nodes are registered with different ones. */
  lemma {:induction false} DistinctAddresses(nodes: map<string, NodeRecord>, source: string, targets: seq<string>)
    requires source in nodes && source !in targets
    requires forall a, b :: a in nodes && b in nodes && Address(nodes[a]) == Address(nodes[b]) ==> a == b
    ensures Address(nodes[source]) !in KnownAddresses(nodes, targets)
  {
    if Address(nodes[source]) in KnownAddresses(nodes, targets) {
      KnownAddressesFrom(nodes, targets, Address(nodes[source]));
    }
  }

  function Copies(src: string, chunkID: string, data: Bytes, order: seq<string>): seq<Cluster.Action>
    decreases |order|
  {
    if order == [] then []
    else
      var addr := order[|order| - 1];
      Copies(src, chunkID, data, order[..|order| - 1])
      + [Cluster.Forward(src, addr, chunkID), Cluster.Deliver(Cluster.PutRequest(addr, chunkID, data))]
  }

  /** The copies a replication makes are a run of the whole-system machine, so replicas keep agreeing. */
  lemma {:induction false} ReplicationIsARun(c: Cluster.Cluster, src: string, chunkID: string, order: seq<string>)
    requires chunkID in Held(c.net.stores, src)
    ensures var data := Held(c.net.stores, src)[chunkID];
            var run := Copies(src, chunkID, data, order);
            var c' := Cluster.Final(c, run);
            && Cluster.Legal(c, run)
            && c'.net.stores == StoreAll(c.net.stores, order, chunkID, data)
            && c'.net.nodes == c.net.nodes && c'.w == c.w && c'.cat == c.cat && c'.up == c.up
    decreases |order|
  {
    var data := Held(c.net.stores, src)[chunkID];
    if order != [] {
      var front, addr := order[..|order| - 1], order[|order| - 1];
      ReplicationIsARun(c, src, chunkID, front);
      var c1 := Cluster.Final(c, Copies(src, chunkID, data, front));
      StoreAllSpec(c.net.stores, front, chunkID, data, src, chunkID);
      CopyStep(c1, src, addr, chunkID);
      ClusterTheorems.FinalConcat(c, Copies(src, chunkID, data, front),
                                  [Cluster.Forward(src, addr, chunkID), Cluster.Deliver(Cluster.PutRequest(addr, chunkID, data))]);
    }
  }

  lemma CopyStep(c: Cluster.Cluster, src: string, addr: string, chunkID: string)
    requires chunkID in Held(c.net.stores, src)
    ensures var data := Held(c.net.stores, src)[chunkID];
            var run := [Cluster.Forward(src, addr, chunkID), Cluster.Deliver(Cluster.PutRequest(addr, chunkID, data))];
            var c' := Cluster.Final(c, run);
            && Cluster.Legal(c, run)
            && c'.net.stores == Cluster.Store(c.net.stores, addr, chunkID, data)
            && c'.net.nodes == c.net.nodes && c'.w == c.w && c'.cat == c.cat && c'.up == c.up
  {
    var data := Held(c.net.stores, src)[chunkID];
    var forward, deliver := Cluster.Forward(src, addr, chunkID), Cluster.Deliver(Cluster.PutRequest(addr, chunkID, data));
    assert [forward, deliver][1..] == [deliver] && [deliver][1..] == [];
    var c1 := Cluster.Next(c, forward);
    assert Cluster.Enabled(c1, deliver);
    assert Cluster.Final(c1, [deliver]) == Cluster.Next(c1, deliver);
  }
}
