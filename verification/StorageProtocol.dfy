/** The chunk protocol of the storage manager as a state machine over the actions it takes
    under its lock: prepare, confirm (which starts a replication goroutine), the goroutine's
    late outcome, delete, the upload handler's direct SaveChunk, and restart. */
module StorageProtocol {
  import opened Sequences
  import opened Keys
  import opened Records

  /** A replication goroutine in flight. */
  datatype Task = Task(chunkID: string, source: string, targets: seq<string>)

  /** The chunk map in memory, the "Chunks" bucket, and the goroutines in flight. */
  datatype Storage = Storage(chunks: map<string, Chunk>, bucket: map<string, Chunk>, tasks: multiset<Task>) {
    function Save(c: Chunk): Storage {
      this.(chunks := chunks[c.chunkID := c], bucket := bucket[c.chunkID := c])
    }
  }

  datatype Op =
    | Prepare(fileID: string, size: int, requested: int, replicas: seq<string>, stamp: nat)
    | Confirm(chunkID: string, hash: string)
    | TaskFailed(task: Task)
    | TaskDone(task: Task)
    | Delete(chunkID: string)
    | Overwrite(record: Chunk)
    | Restart

  /** The number of replicas a request asks for; 0 means 3. */
  function Wanted(requested: int): int {
    if requested == 0 then 3 else requested
  }

  function NewChunk(fileID: string, size: int, replicas: seq<string>, stamp: nat): Chunk {
    Chunk(ChunkKey(fileID, stamp), fileID, size, "", replicas, Pending)
  }

  /** The goroutine a confirmation starts, if any. */
  function Spawned(c: Chunk): multiset<Task> {
    if |c.replicas| > 1 && c.replicas[0] != ""
    then multiset{Task(c.chunkID, c.replicas[0], c.replicas[1..])}
    else multiset{}
  }

  function Apply(s: Storage, op: Op): Storage {
    match op
    case Prepare(fileID, size, _, replicas, stamp) =>
      if replicas == [] then s else s.Save(NewChunk(fileID, size, replicas, stamp))
    case Confirm(id, hash) =>
      if id !in s.chunks then s
      else
        var c := s.chunks[id].(status := Success, hash := hash);
        s.Save(c).(tasks := s.tasks + Spawned(c))
    case TaskFailed(task) =>
      var rest := s.(tasks := s.tasks - multiset{task});
      if task.chunkID !in s.chunks then rest
      else rest.Save(s.chunks[task.chunkID].(status := Degraded))
    case TaskDone(task) => s.(tasks := s.tasks - multiset{task})
    case Delete(id) =>
      if id !in s.chunks then s else s.(chunks := s.chunks - {id}, bucket := s.bucket - {id})
    case Overwrite(record) => s.(bucket := s.bucket[record.chunkID := record])
    case Restart => Storage(s.bucket, s.bucket, multiset{})
  }

  /** Several actions in a row. */
  function ApplyAll(s: Storage, ops: seq<Op>): Storage
    decreases ops
  {
    if ops == [] then s else ApplyAll(Apply(s, ops[0]), ops[1..])
  }

  lemma {:induction false} ApplyAllAppend(s: Storage, ops: seq<Op>, more: seq<Op>)
    ensures ApplyAll(s, ops + more) == ApplyAll(ApplyAll(s, ops), more)
    decreases ops
  {
    hide Apply;
    if ops == [] {
      assert ops + more == more;
    } else {
      assert (ops + more)[1..] == ops[1..] + more;
      ApplyAllAppend(Apply(s, ops[0]), ops[1..], more);
    }
  }

  /** DeleteVersion for each version: DeleteChunk for each of its chunks. */
  function DeleteOps(versions: seq<Version>): seq<Op> {
    if versions == [] then [] else DeleteChunkOps(versions[0].chunkIDs) + DeleteOps(versions[1..])
  }

  function DeleteChunkOps(ids: seq<string>): seq<Op> {
    if ids == [] then [] else [Delete(ids[0])] + DeleteChunkOps(ids[1..])
  }

  /** Deleting chunks one by one takes exactly those out of memory, and with them their saved records. */
  lemma {:induction false} DeletesExactly(s: Storage, ids: seq<string>, id: string)
    ensures var s' := ApplyAll(s, DeleteChunkOps(ids));
            && (id in s'.chunks <==> id in s.chunks && id !in ids)
            && (id in s'.bucket <==> id in s.bucket && !(id in ids && id in s.chunks))
            && (id in s'.chunks ==> s'.chunks[id] == s.chunks[id]) && (id in s'.bucket ==> s'.bucket[id] == s.bucket[id])
            && s'.tasks == s.tasks
    decreases ids
  {
    if ids != [] {
      var s1 := Apply(s, Delete(ids[0]));
      assert DeleteChunkOps(ids)[1..] == DeleteChunkOps(ids[1..]);
      DeletesExactly(s1, ids[1..], id);
      assert ids == [ids[0]] + ids[1..];
    }
  }

  /** Some of these versions lists the chunk. */
  predicate ListsChunk(versions: seq<Version>, id: string) {
    exists i :: 0 <= i < |versions| && id in versions[i].chunkIDs
  }

  /** Deleting versions deletes exactly the chunks they list. */
  lemma {:induction false} DeletesListed(s: Storage, versions: seq<Version>, id: string)
    ensures var s' := ApplyAll(s, DeleteOps(versions));
            && (id in s'.chunks <==> id in s.chunks && !ListsChunk(versions, id))
            && (id in s'.bucket <==> id in s.bucket && !(ListsChunk(versions, id) && id in s.chunks))
            && (id in s'.chunks ==> s'.chunks[id] == s.chunks[id]) && (id in s'.bucket ==> s'.bucket[id] == s.bucket[id])
            && s'.tasks == s.tasks
    decreases versions
  {
    hide Apply, DeleteChunkOps;
    if versions != [] {
      var ids, rest := versions[0].chunkIDs, versions[1..];
      ApplyAllAppend(s, DeleteChunkOps(ids), DeleteOps(rest));
      DeletesExactly(s, ids, id);
      DeletesListed(ApplyAll(s, DeleteChunkOps(ids)), rest, id);
      hide ApplyAll;
      if i :| 0 <= i < |rest| && id in rest[i].chunkIDs { assert id in versions[i + 1].chunkIDs; }
      if i :| 0 < i < |versions| && id in versions[i].chunkIDs { assert id in rest[i - 1].chunkIDs; }
    }
  }

  lemma NoDeletes(s: Storage)
    ensures ApplyAll(s, DeleteOps([])) == s
  {
  }

  // -------------------------------------------------------------------- history

  /** What has happened so far: the record each chunk was prepared with and the replica count
      asked for; which chunks were confirmed, had a failed replication, or were deleted; the
      upload handler's partial records that nothing has been saved over since; and the partial
      records that a restart has loaded. */
  datatype History = History(
    prepared: map<string, Chunk>, asked: map<string, int>,
    confirmed: set<string>, failed: set<string>, deleted: set<string>,
    partial: map<string, Chunk>, loaded: map<string, Chunk>,
    clock: nat)

  datatype World = World(s: Storage, h: History)

  const GENESIS: World := World(Storage(map[], map[], multiset{}), History(map[], map[], {}, {}, {}, map[], map[], 0))

  /** Stamps strictly increase, replica lists come from a selection, only goroutines in flight
      finish, and the upload handler saves records of its own live chunks, with empty status. */
  ghost predicate Enabled(w: World, op: Op) {
    match op
    case Prepare(_, _, requested, replicas, stamp) =>
      w.h.clock < stamp && Distinct(replicas) && (replicas != [] ==> |replicas| <= Wanted(requested))
    case TaskFailed(task) => task in w.s.tasks
    case TaskDone(task) => task in w.s.tasks
    case Overwrite(record) => record.chunkID in w.s.chunks && record.status == Unset
    case _ => true
  }

  function Record(w: World, op: Op): History {
    match op
    case Prepare(fileID, size, requested, replicas, stamp) =>
      if replicas == [] then w.h.(clock := stamp)
      else
        var c := NewChunk(fileID, size, replicas, stamp);
        w.h.(clock := stamp, prepared := w.h.prepared[c.chunkID := c], asked := w.h.asked[c.chunkID := Wanted(requested)])
    case Confirm(id, _) =>
      if id in w.s.chunks then w.h.(confirmed := w.h.confirmed + {id}, partial := w.h.partial - {id}) else w.h
    case TaskFailed(task) =>
      w.h.(failed := w.h.failed + {task.chunkID},
           partial := if task.chunkID in w.s.chunks then w.h.partial - {task.chunkID} else w.h.partial)
    case Delete(id) => if id in w.s.chunks then w.h.(deleted := w.h.deleted + {id}) else w.h
    case Overwrite(record) => w.h.(partial := w.h.partial[record.chunkID := record])
    case Restart => w.h.(loaded := w.h.loaded + w.h.partial, partial := map[])
    case TaskDone(_) => w.h
  }

  function Next(w: World, op: Op): World {
    World(Apply(w.s, op), Record(w, op))
  }

  ghost predicate Legal(w: World, run: seq<Op>)
    decreases run
  {
    run == [] || (Enabled(w, run[0]) && Legal(Next(w, run[0]), run[1..]))
  }

  function Final(w: World, run: seq<Op>): World
    decreases run
  {
    if run == [] then w else Final(Next(w, run[0]), run[1..])
  }

  /** The history rides along without influencing the storage. */
  lemma {:induction false} FinalStorage(w: World, run: seq<Op>)
    ensures Final(w, run).s == ApplyAll(w.s, run)
    decreases run
  {
    hide Apply, Record;
    if run != [] { FinalStorage(Next(w, run[0]), run[1..]); }
  }

  // ------------------------------------------------------------------ invariant

  /** The record that the chunk's replicas in memory come from. */
  function Base(h: History, id: string): Chunk
    requires id in h.prepared || id in h.loaded
  {
    if id in h.loaded then h.loaded[id] else h.prepared[id]
  }

  /** A chunk record in memory. */
  predicate RecordOk(h: History, id: string, c: Chunk) {
    && id in h.prepared
    && c == Base(h, id).(status := c.status, hash := c.hash)
    && (c.status == Pending ==> id !in h.confirmed)
    && (c.status == Success || c.status == Degraded ==> id in h.confirmed)
    && (c.status == Degraded ==> id in h.failed)
    && (c.status == Unset ==> id in h.loaded)
  }

  ghost predicate PreparedOk(h: History, id: string) {
    && id in h.prepared && id in h.asked
    && h.prepared[id].chunkID == id
    && (exists stamp: nat :: stamp <= h.clock && id == ChunkKey(h.prepared[id].fileID, stamp))
    && h.prepared[id].replicas != []
    && Distinct(h.prepared[id].replicas)
    && |h.prepared[id].replicas| <= h.asked[id]
  }

  predicate TaskOk(w: World, t: Task) {
    && t.chunkID in w.h.confirmed && t.chunkID in w.h.prepared
    && Base(w.h, t.chunkID).replicas == [t.source] + t.targets
  }

  /** The bucket holds the partial record if there is one, and what is in memory otherwise. */
  predicate MirrorOk(w: World, id: string)
    requires id in w.s.chunks && id in w.s.bucket
  {
    w.s.bucket[id] == if id in w.h.partial then w.h.partial[id] else w.s.chunks[id]
  }

  ghost predicate PartialOk(h: History) {
    && h.confirmed <= h.prepared.Keys && h.partial.Keys <= h.prepared.Keys && h.loaded.Keys <= h.prepared.Keys
    && (forall id :: id in h.partial ==> h.partial[id].chunkID == id && h.partial[id].status == Unset)
    && (forall id :: id in h.loaded ==> h.loaded[id].chunkID == id && h.loaded[id].status == Unset)
  }

  ghost predicate AllPrepared(h: History) {
    forall id :: id in h.prepared ==> PreparedOk(h, id)
  }

  ghost predicate KeysOk(w: World) {
    && w.s.chunks.Keys == w.s.bucket.Keys == w.h.prepared.Keys - w.h.deleted
    && w.h.deleted <= w.h.prepared.Keys
  }

  ghost predicate RecordsOk(w: World)
    requires w.s.chunks.Keys == w.s.bucket.Keys
  {
    forall id :: id in w.s.chunks ==>
      && w.s.chunks[id].chunkID == id && w.s.bucket[id].chunkID == id
      && MirrorOk(w, id) && RecordOk(w.h, id, w.s.chunks[id])
  }

  ghost predicate TasksOk(w: World) {
    forall t :: t in w.s.tasks ==> TaskOk(w, t)
  }

  ghost predicate Inv(w: World) {
    KeysOk(w) && AllPrepared(w.h) && PartialOk(w.h) && RecordsOk(w) && TasksOk(w)
  }

  /** A new stamp gives a key that was never used. */
  lemma FreshKey(w: World, fileID: string, stamp: nat)
    requires Inv(w) && w.h.clock < stamp
    ensures ChunkKey(fileID, stamp) !in w.h.prepared
  {
    var id := ChunkKey(fileID, stamp);
    if id in w.h.prepared {
      assert PreparedOk(w.h, id);
      var used :| 0 <= used <= w.h.clock && id == ChunkKey(w.h.prepared[id].fileID, used);
      ChunkKeyInjective(fileID, stamp, w.h.prepared[id].fileID, used);
    }
  }

  lemma PrepareKeepsPrepared(w: World, op: Op)
    requires Inv(w) && Enabled(w, op) && op.Prepare?
    ensures AllPrepared(Record(w, op))
  {
    var h' := Record(w, op);
    forall id | id in h'.prepared ensures PreparedOk(h', id) {
      if id in w.h.prepared {
        assert PreparedOk(w.h, id);
        if op.replicas != [] { FreshKey(w, op.fileID, op.stamp); }
      } else {
        assert id == ChunkKey(op.fileID, op.stamp);
      }
    }
  }

  lemma PrepareKeepsInv(w: World, op: Op)
    requires Inv(w) && Enabled(w, op) && op.Prepare?
    ensures Inv(Next(w, op))
  {
    PrepareKeepsPrepared(w, op);
    hide PreparedOk, ChunkKey;
    FreshKey(w, op.fileID, op.stamp);
    if op.replicas != [] {
      SavePreparedKeepsInv(w, NewChunk(op.fileID, op.size, op.replicas, op.stamp), Record(w, op));
    }
  }

  /** Adding one new pending record touches nothing else. */
  lemma SavePreparedKeepsInv(w: World, c: Chunk, h: History)
    requires KeysOk(w) && RecordsOk(w) && TasksOk(w) && PartialOk(w.h) && AllPrepared(h)
    requires c.chunkID !in w.h.prepared && c.status == Pending
    requires h == w.h.(prepared := w.h.prepared[c.chunkID := c], asked := h.asked, clock := h.clock)
    ensures Inv(World(w.s.Save(c), h))
  {
    hide PreparedOk, RecordOk, MirrorOk, TaskOk, TasksOk;
    var w' := World(w.s.Save(c), h);
    assert KeysOk(w');
    SaveKeepsTasks(w, c, h);
    forall id | id in w'.s.chunks ensures OneRecordOk(w', id) { NewKeepsOne(w, c, h, id); }
    RecordsIntro(w');
  }

  lemma NewKeepsOne(w: World, c: Chunk, h: History, id: string)
    requires KeysOk(w) && RecordsOk(w) && PartialOk(w.h) && c.chunkID !in w.h.prepared && c.status == Pending
    requires h == w.h.(prepared := w.h.prepared[c.chunkID := c], asked := h.asked, clock := h.clock)
    requires id in w.s.Save(c).chunks
    ensures OneRecordOk(World(w.s.Save(c), h), id)
  {
    if id != c.chunkID { assert OneRecordOk(w, id); }
  }

  lemma SaveKeepsTasks(w: World, c: Chunk, h: History)
    requires TasksOk(w) && PartialOk(w.h) && c.chunkID !in w.h.prepared
    requires h == w.h.(prepared := w.h.prepared[c.chunkID := c], asked := h.asked, clock := h.clock)
    ensures TasksOk(World(w.s.Save(c), h))
  {
    var w' := World(w.s.Save(c), h);
    forall t | t in w'.s.tasks ensures TaskOk(w', t) { assert TaskOk(w, t); }
  }

  lemma SamePrepared(h: History, h': History)
    requires AllPrepared(h) && h'.prepared == h.prepared && h'.asked == h.asked && h'.clock == h.clock
    ensures AllPrepared(h')
  {
    forall id | id in h'.prepared ensures PreparedOk(h', id) { assert PreparedOk(h, id); }
  }

  /** Saving a chunk's record again, after it was confirmed or degraded, leaves the other records alone. */
  lemma SavedKeepsRecords(w: World, c: Chunk, h: History, s: Storage)
    requires KeysOk(w) && RecordsOk(w) && PartialOk(w.h) && c.chunkID in w.s.chunks
    requires s.chunks == w.s.chunks[c.chunkID := c] && s.bucket == w.s.bucket[c.chunkID := c]
    requires h.prepared == w.h.prepared && h.loaded == w.h.loaded && h.deleted == w.h.deleted
    requires h.partial == w.h.partial - {c.chunkID}
    requires w.h.confirmed <= h.confirmed <= w.h.confirmed + {c.chunkID} && w.h.failed <= h.failed
    requires RecordOk(h, c.chunkID, c)
    ensures KeysOk(World(s, h)) && RecordsOk(World(s, h)) && PartialOk(h)
  {
    var w' := World(s, h);
    hide RecordOk, MirrorOk;
    forall id | id in s.chunks ensures OneRecordOk(w', id) { SavedKeepsOne(w, c, h, s, id); }
    assert KeysOk(w');
    RecordsIntro(w');
  }

  lemma RecordsIntro(w: World)
    requires w.s.chunks.Keys == w.s.bucket.Keys && forall id :: id in w.s.chunks ==> OneRecordOk(w, id)
    ensures RecordsOk(w)
  {
    hide RecordOk, MirrorOk;
    forall id | id in w.s.chunks ensures OneRecordOk(w, id) {}
  }

  ghost predicate OneRecordOk(w: World, id: string)
    requires id in w.s.chunks
  {
    && id in w.s.bucket && w.s.chunks[id].chunkID == id && w.s.bucket[id].chunkID == id
    && MirrorOk(w, id) && RecordOk(w.h, id, w.s.chunks[id])
  }

  lemma SavedKeepsOne(w: World, c: Chunk, h: History, s: Storage, id: string)
    requires KeysOk(w) && RecordsOk(w) && c.chunkID in w.s.chunks
    requires s.chunks == w.s.chunks[c.chunkID := c] && s.bucket == w.s.bucket[c.chunkID := c]
    requires h.prepared == w.h.prepared && h.loaded == w.h.loaded && h.partial == w.h.partial - {c.chunkID}
    requires w.h.confirmed <= h.confirmed <= w.h.confirmed + {c.chunkID} && w.h.failed <= h.failed
    requires RecordOk(h, c.chunkID, c) && id in s.chunks
    ensures OneRecordOk(World(s, h), id)
  {
    if id != c.chunkID {
      assert id in w.s.chunks;
      assert OneRecordOk(w, id);
    }
  }

  /** Goroutines in flight keep their replicas as long as no restart loads others. */
  lemma TasksKept(w: World, s: Storage, h: History)
    requires TasksOk(w) && h.prepared == w.h.prepared && h.loaded == w.h.loaded && w.h.confirmed <= h.confirmed
    requires forall t :: t in s.tasks ==> t in w.s.tasks || TaskOk(World(s, h), t)
    ensures TasksOk(World(s, h))
  {
    forall t | t in s.tasks ensures TaskOk(World(s, h), t) {
      if t in w.s.tasks { assert TaskOk(w, t); }
    }
  }

  lemma ConfirmKeepsInv(w: World, op: Op)
    requires Inv(w) && op.Confirm?
    ensures Inv(Next(w, op))
  {
    hide PreparedOk;
    var w' := Next(w, op);
    SamePrepared(w.h, w'.h);
    if op.chunkID in w.s.chunks {
      ConfirmedRecord(w, op);
      hide RecordsOk, TasksOk, PartialOk, KeysOk, AllPrepared, RecordOk, TaskOk, Spawned;
      SavedKeepsRecords(w, w'.s.chunks[op.chunkID], w'.h, w'.s);
      TasksKept(w, w'.s, w'.h);
    }
  }

  lemma ConfirmedRecord(w: World, op: Op)
    requires Inv(w) && op.Confirm? && op.chunkID in w.s.chunks
    ensures var w' := Next(w, op);
            var c := w'.s.chunks[op.chunkID];
            && c.chunkID == op.chunkID && RecordOk(w'.h, op.chunkID, c)
            && forall t :: t in w'.s.tasks ==> t in w.s.tasks || TaskOk(w', t)
  {
    hide PreparedOk, TasksOk;
    assert RecordOk(w.h, op.chunkID, w.s.chunks[op.chunkID]);
    var w' := Next(w, op);
    var c := w'.s.chunks[op.chunkID];
    forall t | t in w'.s.tasks && t !in w.s.tasks ensures TaskOk(w', t) { assert t in Spawned(c); }
  }

  lemma TaskFailedKeepsInv(w: World, op: Op)
    requires Inv(w) && Enabled(w, op) && op.TaskFailed?
    ensures Inv(Next(w, op))
  {
    hide PreparedOk;
    var w' := Next(w, op);
    SamePrepared(w.h, w'.h);
    DegradedRecord(w, op);
    hide RecordsOk, TasksOk, PartialOk, KeysOk, AllPrepared, RecordOk, TaskOk;
    TasksKept(w, w'.s, w'.h);
    if op.task.chunkID in w.s.chunks {
      SavedKeepsRecords(w, w'.s.chunks[op.task.chunkID], w'.h, w'.s);
    } else {
      FailedUnknown(w, w');
    }
  }

  lemma DegradedRecord(w: World, op: Op)
    requires Inv(w) && Enabled(w, op) && op.TaskFailed?
    ensures var w' := Next(w, op);
            && (op.task.chunkID in w.s.chunks ==>
                  w'.s.chunks[op.task.chunkID].chunkID == op.task.chunkID
                  && RecordOk(w'.h, op.task.chunkID, w'.s.chunks[op.task.chunkID]))
            && forall t :: t in w'.s.tasks ==> t in w.s.tasks
  {
    hide PreparedOk;
    assert TaskOk(w, op.task);
    if op.task.chunkID in w.s.chunks { assert RecordOk(w.h, op.task.chunkID, w.s.chunks[op.task.chunkID]); }
  }

  /** The failure of a replication whose chunk is gone is only noted. */
  lemma FailedUnknown(w: World, w': World)
    requires KeysOk(w) && RecordsOk(w) && PartialOk(w.h)
    requires w'.s.chunks == w.s.chunks && w'.s.bucket == w.s.bucket && w.h.failed <= w'.h.failed
    requires w'.h == w.h.(failed := w'.h.failed)
    ensures KeysOk(w') && RecordsOk(w') && PartialOk(w'.h)
  {
    forall id | id in w'.s.chunks ensures MirrorOk(w', id) && RecordOk(w'.h, id, w'.s.chunks[id]) {
      assert MirrorOk(w, id) && RecordOk(w.h, id, w.s.chunks[id]);
    }
  }

  lemma DeleteKeepsInv(w: World, op: Op)
    requires Inv(w) && Enabled(w, op) && op.Delete?
    ensures Inv(Next(w, op))
  {
    hide PreparedOk;
    var w' := Next(w, op);
    SamePrepared(w.h, w'.h);
    forall t | t in w'.s.tasks ensures TaskOk(w', t) { assert t in w.s.tasks; assert TaskOk(w, t); }
  }

  lemma OverwriteKeepsInv(w: World, op: Op)
    requires Inv(w) && Enabled(w, op) && op.Overwrite?
    ensures Inv(Next(w, op))
  {
    hide PreparedOk;
    var w' := Next(w, op);
    SamePrepared(w.h, w'.h);
    TasksKept(w, w'.s, w'.h);
    hide TasksOk, TaskOk;
    forall id | id in w'.s.chunks ensures MirrorOk(w', id) && RecordOk(w'.h, id, w'.s.chunks[id]) {
      assert MirrorOk(w, id) && RecordOk(w.h, id, w.s.chunks[id]);
    }
  }

  lemma RestartKeepsInv(w: World)
    requires Inv(w)
    ensures Inv(Next(w, Restart))
  {
    hide PreparedOk;
    var w' := Next(w, Restart);
    SamePrepared(w.h, w'.h);
    hide TaskOk, AllPrepared;
    forall id | id in w'.s.chunks ensures MirrorOk(w', id) && RecordOk(w'.h, id, w'.s.chunks[id]) {
      assert MirrorOk(w, id) && RecordOk(w.h, id, w.s.chunks[id]);
    }
  }

  lemma TaskDoneKeepsInv(w: World, op: Op)
    requires Inv(w) && op.TaskDone?
    ensures Inv(Next(w, op))
  {
    hide PreparedOk, RecordOk;
    var w' := Next(w, op);
    TasksKept(w, w'.s, w'.h);
    forall id | id in w'.s.chunks ensures MirrorOk(w', id) { assert MirrorOk(w, id); }
  }

  lemma StepKeepsInv(w: World, op: Op)
    requires Inv(w) && Enabled(w, op)
    ensures Inv(Next(w, op))
  {
    match op
    case Prepare(_, _, _, _, _) => PrepareKeepsInv(w, op);
    case Confirm(_, _) => ConfirmKeepsInv(w, op);
    case TaskFailed(_) => TaskFailedKeepsInv(w, op);
    case Delete(_) => DeleteKeepsInv(w, op);
    case Overwrite(_) => OverwriteKeepsInv(w, op);
    case Restart => RestartKeepsInv(w);
    case TaskDone(_) => TaskDoneKeepsInv(w, op);
  }

  lemma {:induction false} RunKeepsInv(w: World, run: seq<Op>)
    requires Inv(w) && Legal(w, run)
    ensures Inv(Final(w, run))
    decreases run
  {
    if run != [] {
      StepKeepsInv(w, run[0]);
      RunKeepsInv(Next(w, run[0]), run[1..]);
    }
  }

  // ------------------------------------------------------------------- theorems

  ghost predicate NoOverwrite(run: seq<Op>) {
    forall op :: op in run ==> !op.Overwrite?
  }

  lemma {:induction false} PartialOnly(w: World, run: seq<Op>)
    requires NoOverwrite(run)
    ensures w.h.partial == map[] ==> Final(w, run).h.partial == map[]
    decreases run
  {
    if run != [] {
      assert run[0] in run;
      assert forall op :: op in run[1..] ==> op in run;
      PartialOnly(Next(w, run[0]), run[1..]);
    }
  }

  /** Over every interleaving without server-side uploads, the bucket is the in-memory map, so a
      restart recovers the map exactly. */
  lemma DiskMirrorsMemory(run: seq<Op>)
    requires Legal(GENESIS, run) && NoOverwrite(run)
    ensures var s := Final(GENESIS, run).s; s.bucket == s.chunks && Apply(s, Restart).chunks == s.chunks
  {
    RunKeepsInv(GENESIS, run);
    PartialOnly(GENESIS, run);
    var w := Final(GENESIS, run);
    forall id | id in w.s.chunks ensures w.s.bucket[id] == w.s.chunks[id] { assert MirrorOk(w, id); }
  }

  /** With server-side uploads the keys still agree, and a restart changes exactly the records that
      the upload handler saved last: those it replaces by its partial ones. */
  lemma RestartLoadsPartial(run: seq<Op>, id: string)
    requires Legal(GENESIS, run)
    ensures var w := Final(GENESIS, run);
            var after := Apply(w.s, Restart);
            && (id in after.chunks <==> id in w.s.chunks)
            && (id in w.s.chunks ==> after.chunks[id] == if id in w.h.partial then w.h.partial[id] else w.s.chunks[id])
            && (id in w.s.chunks ==> (id in w.h.partial <==> Overwritten(run, id)))
  {
    RunKeepsInv(GENESIS, run);
    var w := Final(GENESIS, run);
    if id in w.s.chunks {
      assert MirrorOk(w, id);
      HistoryMeans(run, id);
    }
  }

  /** The last operation of the run that saves the chunk, or restarts, is the upload handler's save. */
  predicate Overwritten(run: seq<Op>, id: string)
    decreases |run|
  {
    run != [] &&
      var last := run[|run| - 1];
      if last.Overwrite? && last.record.chunkID == id then true
      else if last.Restart? || (last.Confirm? && last.chunkID == id) || (last.TaskFailed? && last.task.chunkID == id) then false
      else Overwritten(run[..|run| - 1], id)
  }

  /** Some restart of the run came while the chunk was overwritten. */
  predicate Reloaded(run: seq<Op>, id: string)
    decreases |run|
  {
    run != [] && (Reloaded(run[..|run| - 1], id) || (run[|run| - 1].Restart? && Overwritten(run[..|run| - 1], id)))
  }

  lemma FrontStep(run: seq<Op>)
    requires Legal(GENESIS, run) && run != []
    ensures var front, last := run[..|run| - 1], run[|run| - 1];
            Legal(GENESIS, front) && Enabled(Final(GENESIS, front), last)
            && Final(GENESIS, run) == Next(Final(GENESIS, front), last)
  {
    var front, last := run[..|run| - 1], run[|run| - 1];
    assert run == front + [last];
    FinalConcat(GENESIS, front, [last]);
    assert [last][1..] == [];
  }

  /** Before it was prepared, nothing can have happened to a chunk; and once it is gone it is gone. */
  lemma StillThere(w: World, op: Op, id: string)
    requires Inv(w) && Enabled(w, op) && id in Next(w, op).s.chunks
    ensures id in w.s.chunks || (id !in w.h.prepared && op.Prepare?)
  {
    hide PreparedOk, RecordOk, TaskOk;
    StepKeepsInv(w, op);
  }

  /** The history's two records say what the run says: of a live chunk the last save was the upload
      handler's, or a restart loaded such a save. */
  lemma {:induction false} HistoryMeans(run: seq<Op>, id: string)
    requires Legal(GENESIS, run)
    requires var w := Final(GENESIS, run); id in w.s.chunks || id !in w.h.prepared
    ensures var h := Final(GENESIS, run).h;
            (id in h.partial <==> Overwritten(run, id)) && (id in h.loaded <==> Reloaded(run, id))
    decreases |run|
  {
    if run != [] {
      var front, last := run[..|run| - 1], run[|run| - 1];
      FrontStep(run);
      var w := Final(GENESIS, front);
      RunKeepsInv(GENESIS, front);
      LiveOrUnknown(w, last, id);
      HistoryMeans(front, id);
      hide Legal, Final;
      MeansStep(w, last, id);
    }
  }

  /** Partial records are the upload handler's. */
  lemma {:induction false} SavedInRun(run: seq<Op>, id: string)
    requires Legal(GENESIS, run)
    ensures var h := Final(GENESIS, run).h;
            (id in h.partial ==> Overwrite(h.partial[id]) in run) && (id in h.loaded ==> Overwrite(h.loaded[id]) in run)
    decreases |run|
  {
    if run != [] {
      FrontStep(run);
      SavedInRun(run[..|run| - 1], id);
      hide Legal, Final, Apply;
    }
  }

  lemma LiveOrUnknown(w: World, op: Op, id: string)
    requires Inv(w) && Enabled(w, op)
    requires id in Next(w, op).s.chunks || id !in Next(w, op).h.prepared
    ensures id in w.s.chunks || id !in w.h.prepared
  {
    if id in Next(w, op).s.chunks { StillThere(w, op, id); }
    hide Inv;
  }

  lemma MeansStep(w: World, op: Op, id: string)
    requires Inv(w) && Enabled(w, op) && (id in w.s.chunks || id !in w.h.prepared)
    ensures var h, h' := w.h, Next(w, op).h;
            && (id in h'.loaded <==> id in h.loaded || (op.Restart? && id in h.partial))
            && (id in h'.partial <==>
                  if op.Overwrite? && op.record.chunkID == id then true
                  else if op.Restart? || (op.Confirm? && op.chunkID == id) || (op.TaskFailed? && op.task.chunkID == id) then false
                  else id in h.partial)
  {
    hide PreparedOk, RecordOk, TaskOk;
  }

  lemma {:induction false} DeletedStays(w: World, run: seq<Op>, id: string)
    requires id in w.h.deleted
    ensures id in Final(w, run).h.deleted
    decreases run
  {
    if run != [] { DeletedStays(Next(w, run[0]), run[1..], id); }
  }

  lemma {:induction false} FinalConcat(w: World, run: seq<Op>, more: seq<Op>)
    ensures Final(w, run + more) == Final(Final(w, run), more)
    ensures Legal(w, run + more) <==> Legal(w, run) && Legal(Final(w, run), more)
    decreases run
  {
    if run == [] {
      assert run + more == more;
    } else {
      assert (run + more)[1..] == run[1..] + more;
      FinalConcat(Next(w, run[0]), run[1..], more);
    }
  }

  /** A chunk that has been deleted never comes back, in memory or on disk, whatever late
      replication failures, confirmations, uploads or restarts follow. */
  lemma NoResurrection(run: seq<Op>, id: string, more: seq<Op>)
    requires Legal(GENESIS, run + [Delete(id)] + more) && id in Final(GENESIS, run).s.chunks
    ensures var s := Final(GENESIS, run + [Delete(id)] + more).s; id !in s.chunks && id !in s.bucket
  {
    FinalConcat(GENESIS, run + [Delete(id)], more);
    FinalConcat(GENESIS, run, [Delete(id)]);
    var w := Final(GENESIS, run);
    assert Final(w, [Delete(id)]) == Next(w, Delete(id)) by {
      assert [Delete(id)][1..] == [];
    }
    DeletedStays(Next(w, Delete(id)), more, id);
    RunKeepsInv(GENESIS, run + [Delete(id)] + more);
  }

  /** The operation prepares this chunk. */
  predicate Prepares(op: Op, id: string) {
    op.Prepare? && op.replicas != [] && ChunkKey(op.fileID, op.stamp) == id
  }

  /** The status the run gives a live chunk: that of the last operation that sets it. */
  function StatusOf(run: seq<Op>, id: string): ChunkStatus
    decreases |run|
  {
    if run == [] then Unset
    else
      var front, last := run[..|run| - 1], run[|run| - 1];
      if Prepares(last, id) then Pending
      else if last.Confirm? && last.chunkID == id then Success
      else if last.TaskFailed? && last.task.chunkID == id then Degraded
      else if last.Restart? && Overwritten(front, id) then Unset
      else StatusOf(front, id)
  }

  /** Its hash: that of the last confirmation, until a restart loads a partial record. */
  function HashOf(run: seq<Op>, id: string): string
    decreases |run|
  {
    if run == [] then ""
    else
      var front, last := run[..|run| - 1], run[|run| - 1];
      if Prepares(last, id) then ""
      else if last.Confirm? && last.chunkID == id then last.hash
      else if last.Restart? && Overwritten(front, id) then SavedOver(front, id).hash
      else HashOf(front, id)
  }

  /** The last record the upload handler saved for the chunk. */
  function SavedOver(run: seq<Op>, id: string): Chunk
    requires Overwritten(run, id)
    decreases |run|
  {
    var last := run[|run| - 1];
    if last.Overwrite? && last.record.chunkID == id then last.record else SavedOver(run[..|run| - 1], id)
  }

  /** What every operation does to the chunk's record in memory, and to the one that will be loaded. */
  ghost predicate RecordFollows(w: World, run: seq<Op>, id: string) {
    && id in w.s.chunks && id in w.s.bucket
    && w.s.chunks[id].status == StatusOf(run, id) && w.s.chunks[id].hash == HashOf(run, id)
    && w.s.bucket[id] == if Overwritten(run, id) then SavedOver(run, id) else w.s.chunks[id]
  }

  /** One more operation, looked at from the run. */
  lemma OneMoreOp(front: seq<Op>, op: Op, id: string)
    ensures StatusOf(front + [op], id)
            == if Prepares(op, id) then Pending
               else if op.Confirm? && op.chunkID == id then Success
               else if op.TaskFailed? && op.task.chunkID == id then Degraded
               else if op.Restart? && Overwritten(front, id) then Unset
               else StatusOf(front, id)
    ensures HashOf(front + [op], id)
            == if Prepares(op, id) then ""
               else if op.Confirm? && op.chunkID == id then op.hash
               else if op.Restart? && Overwritten(front, id) then SavedOver(front, id).hash
               else HashOf(front, id)
    ensures Overwritten(front + [op], id)
            <==> if op.Overwrite? && op.record.chunkID == id then true
                 else if op.Restart? || (op.Confirm? && op.chunkID == id) || (op.TaskFailed? && op.task.chunkID == id) then false
                 else Overwritten(front, id)
    ensures Overwritten(front + [op], id) ==>
              SavedOver(front + [op], id) == if op.Overwrite? && op.record.chunkID == id then op.record else SavedOver(front, id)
  {
    var run := front + [op];
    assert run[..|run| - 1] == front && run[|run| - 1] == op;
  }

  /** What one operation does to one chunk's two records. */
  lemma StepRecords(w: World, op: Op, id: string)
    requires Inv(w) && Enabled(w, op) && id in Next(w, op).s.chunks
    ensures var s' := Next(w, op).s;
            && id in s'.bucket && (id in w.s.chunks || Prepares(op, id)) && (id in w.s.chunks <==> id in w.s.bucket)
            && (Prepares(op, id) ==> s'.chunks[id].status == Pending && s'.chunks[id].hash == "" && s'.bucket[id] == s'.chunks[id])
            && (!Prepares(op, id) ==>
                  if op.Confirm? && op.chunkID == id then
                    s'.chunks[id].status == Success && s'.chunks[id].hash == op.hash && s'.bucket[id] == s'.chunks[id]
                  else if op.TaskFailed? && op.task.chunkID == id then
                    s'.chunks[id].status == Degraded && s'.chunks[id].hash == w.s.chunks[id].hash && s'.bucket[id] == s'.chunks[id]
                  else if op.Restart? then s'.chunks[id] == w.s.bucket[id] == s'.bucket[id]
                  else s'.chunks[id] == w.s.chunks[id]
                       && s'.bucket[id] == if op.Overwrite? && op.record.chunkID == id then op.record else w.s.bucket[id])
  {
    hide Spawned, ChunkKey, Record, Inv, Enabled, Distinct;
    KeyedRecords(w);
  }

  /** If the chunk is new its record is; if not, the run's view of it carries on. */
  lemma StepFollows(w: World, front: seq<Op>, op: Op, id: string)
    requires Inv(w) && Enabled(w, op) && id in Next(w, op).s.chunks
    requires id in w.s.chunks ==> RecordFollows(w, front, id)
    requires id !in w.s.chunks ==> !Overwritten(front, id)
    requires Overwritten(front, id) ==> SavedOver(front, id).status == Unset && id in w.s.chunks
    requires Prepares(op, id) ==> id !in w.s.chunks
    ensures RecordFollows(Next(w, op), front + [op], id)
  {
    hide StatusOf, HashOf, SavedOver, Overwritten, Prepares, Inv, Enabled, Next;
    StepRecords(w, op, id);
    OneMoreOp(front, op, id);
    NoSaveHere(op, id);
  }

  lemma NoSaveHere(op: Op, id: string)
    ensures Prepares(op, id) ==> op.Prepare?
  {
    hide ChunkKey;
  }

  /** A chunk is prepared once. */
  lemma PreparedOnce(w: World, op: Op, id: string)
    requires Inv(w) && Enabled(w, op) && Prepares(op, id)
    ensures id !in w.h.prepared && id !in w.s.chunks
  {
    FreshKey(w, op.fileID, op.stamp);
    KeyedRecords(w);
    hide Inv, ChunkKey;
  }

  lemma KeyedRecords(w: World)
    requires Inv(w)
    ensures w.s.chunks.Keys == w.s.bucket.Keys && w.s.chunks.Keys <= w.h.prepared.Keys
    ensures forall id :: id in w.s.chunks ==> w.s.chunks[id].chunkID == id
  {
    hide AllPrepared, TasksOk, PartialOk, MirrorOk, RecordOk;
  }

  /** Status and hash of every live chunk, in every run, from the run's own operations. It is degraded exactly
      when the last operation that set its status is the failure of a replication, and so on; its hash is that
      of the last confirmation. The bucket agrees, or holds what the upload handler saved since. */
  lemma {:induction false} StatusFromRun(run: seq<Op>, id: string)
    requires Legal(GENESIS, run) && id in Final(GENESIS, run).s.chunks
    ensures RecordFollows(Final(GENESIS, run), run, id)
    decreases |run|
  {
    hide *;
    if run == [] {
      NothingLive(id);
    } else {
      var front, last := run[..|run| - 1], run[|run| - 1];
      assert front + [last] == run;
      FrontStep(run);
      var w := Final(GENESIS, front);
      GenesisInv();
      RunKeepsInv(GENESIS, front);
      StillThere(w, last, id);
      if Prepares(last, id) { PreparedOnce(w, last, id); }
      if id in w.s.chunks { StatusFromRun(front, id); }
      LiveOrUnknown(w, last, id);
      HistoryMeans(front, id);
      UnknownPartial(w, id);
      if Overwritten(front, id) { SavedUnset(front, id); }
      StepFollows(w, front, last, id);
    }
  }

  lemma NothingLive(id: string)
    ensures id !in Final(GENESIS, []).s.chunks
  {
  }

  lemma GenesisInv()
    ensures Inv(GENESIS)
  {
  }

  /** The upload handler's records have no status. */
  lemma {:induction false} SavedUnset(run: seq<Op>, id: string)
    requires Legal(GENESIS, run) && Overwritten(run, id)
    ensures SavedOver(run, id).status == Unset
    decreases |run|
  {
    var front, last := run[..|run| - 1], run[|run| - 1];
    FrontStep(run);
    hide Legal, Final, Inv;
    if !(last.Overwrite? && last.record.chunkID == id) { SavedUnset(front, id); }
  }

  lemma UnknownPartial(w: World, id: string)
    requires Inv(w)
    ensures id in w.h.partial ==> id in w.h.prepared
  {
  }

  /** Every live chunk was prepared once, by an operation of the run with its file, size and replicas. */
  lemma {:induction false} PreparedInRun(run: seq<Op>, id: string)
    requires Legal(GENESIS, run) && id in Final(GENESIS, run).h.prepared
    ensures exists op :: op in run && Prepares(op, id)
              && var c := Final(GENESIS, run).h.prepared[id];
                 c == Chunk(id, op.fileID, op.size, "", op.replicas, Pending)
                 && id in Final(GENESIS, run).h.asked
                 && Final(GENESIS, run).h.asked[id] == if op.requested == 0 then 3 else op.requested
    decreases |run|
  {
    if run != [] {
      var front, last := run[..|run| - 1], run[|run| - 1];
      FrontStep(run);
      var w := Final(GENESIS, front);
      assert run == front + [last];
      if Prepares(last, id) {
        assert last in run;
      } else {
        NotPreparedHere(w, last, id);
        PreparedInRun(front, id);
        var op :| op in front && Prepares(op, id)
          && w.h.prepared[id] == Chunk(id, op.fileID, op.size, "", op.replicas, Pending)
          && id in w.h.asked && w.h.asked[id] == if op.requested == 0 then 3 else op.requested;
        assert op in run;
      }
    }
  }

  lemma NotPreparedHere(w: World, op: Op, id: string)
    requires !Prepares(op, id) && id in Next(w, op).h.prepared
    ensures id in w.h.prepared && Next(w, op).h.prepared[id] == w.h.prepared[id]
    ensures (id in Next(w, op).h.asked <==> id in w.h.asked)
            && (id in w.h.asked ==> Next(w, op).h.asked[id] == w.h.asked[id])
  {
    hide ChunkKey;
  }

  // ----------------------------------------------------------- replications in flight

  /** How many replications the run has started, and how many have ended, since its last restart. */
  function Started(run: seq<Op>): nat
    decreases |run|
  {
    if run == [] || run[|run| - 1].Restart? then 0
    else
      var front, last := run[..|run| - 1], run[|run| - 1];
      var chunks := Final(GENESIS, front).s.chunks;
      Started(front) + if last.Confirm? && last.chunkID in chunks && |chunks[last.chunkID].replicas| > 1
                          && chunks[last.chunkID].replicas[0] != "" then 1 else 0
  }

  function Ended(run: seq<Op>): nat
    decreases |run|
  {
    if run == [] || run[|run| - 1].Restart? then 0
    else Ended(run[..|run| - 1]) + if run[|run| - 1].TaskFailed? || run[|run| - 1].TaskDone? then 1 else 0
  }

  /** Every confirmation of a chunk with several replicas starts exactly one replication, and it stays in
      flight until it ends or the server restarts. */
  lemma {:induction false} ReplicationsConserved(run: seq<Op>)
    requires Legal(GENESIS, run)
    ensures |Final(GENESIS, run).s.tasks| + Ended(run) == Started(run)
    decreases |run|
  {
    if run != [] {
      var front, last := run[..|run| - 1], run[|run| - 1];
      FrontStep(run);
      ReplicationsConserved(front);
      hide Legal;
      StepConserves(Final(GENESIS, front), last);
    }
  }

  lemma StepConserves(w: World, op: Op)
    requires Enabled(w, op)
    ensures |Next(w, op).s.tasks|
            == if op.Restart? then 0
               else if op.TaskFailed? || op.TaskDone? then |w.s.tasks| - 1
               else |w.s.tasks| + if op.Confirm? && op.chunkID in w.s.chunks && |w.s.chunks[op.chunkID].replicas| > 1
                                     && w.s.chunks[op.chunkID].replicas[0] != "" then 1 else 0
  {
    hide ChunkKey, Record;
  }

  /** The history of every chunk, in every run. Its replicas are the ones it was prepared with (non-empty,
      distinct, and no more than asked for) unless a restart has loaded a partial record, and then they are
      that record's. Whatever was loaded: a pending chunk has no replication in flight; a degraded one was
      confirmed and had a replication fail; and a replication goes from the first replica to the others. */
  lemma ChunkHistory(run: seq<Op>, id: string)
    requires Legal(GENESIS, run) && id in Final(GENESIS, run).s.chunks
    ensures var w := Final(GENESIS, run);
            var c := w.s.chunks[id];
            && id in w.h.prepared && id in w.h.asked
            && (id in w.h.loaded <==> Reloaded(run, id))
            && (if Reloaded(run, id) then id in w.h.loaded && Overwrite(w.h.loaded[id]) in run && c.replicas == w.h.loaded[id].replicas
                else c.replicas == w.h.prepared[id].replicas
                     && c.replicas != [] && Distinct(c.replicas) && |c.replicas| <= w.h.asked[id])
            && (c.status == Degraded ==> id in w.h.confirmed && id in w.h.failed)
            && (c.status == Pending ==> forall t :: t in w.s.tasks ==> t.chunkID != id)
            && (forall t :: t in w.s.tasks && t.chunkID == id ==> c.replicas == [t.source] + t.targets)
  {
    RunKeepsInv(GENESIS, run);
    HistoryMeans(run, id);
    SavedInRun(run, id);
    var w := Final(GENESIS, run);
    var c := w.s.chunks[id];
    assert PreparedOk(w.h, id) && RecordOk(w.h, id, c);
    forall t | t in w.s.tasks && t.chunkID == id
      ensures c.status != Pending && c.replicas == [t.source] + t.targets
    {
      assert TaskOk(w, t);
    }
  }

  /** A replication's source is among its targets exactly when a restart has loaded a partial record whose
      first address is repeated. */
  lemma SourceIsTargetIff(run: seq<Op>, task: Task)
    requires Legal(GENESIS, run) && task in Final(GENESIS, run).s.tasks
    ensures var h := Final(GENESIS, run).h;
            task.source in task.targets
            <==> task.chunkID in h.loaded
                 && var others := h.loaded[task.chunkID].replicas; others != [] && others[0] in others[1..]
  {
    RunKeepsInv(GENESIS, run);
    var w := Final(GENESIS, run);
    assert TaskOk(w, task) && PreparedOk(w.h, task.chunkID);
    var replicas := Base(w.h, task.chunkID).replicas;
    assert replicas[1..] == task.targets && replicas[0] == task.source;
    if task.chunkID !in w.h.loaded { FirstOnce(replicas); }
  }

  lemma FirstOnce(s: seq<string>)
    requires Distinct(s) && s != []
    ensures s[0] !in s[1..]
  {
  }

  /** A run that gets there. The upload handler saves a record whose replicas are one address three times;
      after a restart the chunk is confirmed again, and the replication that starts sends from that address
      to itself, with three replicas where two were asked for. */
  lemma SourceAmongTargets(addr: string)
    requires addr != ""
    ensures var id := ChunkKey("f", 1);
            var run := [Prepare("f", 1, 2, ["a", "b"], 1), Confirm(id, ""), Overwrite(Chunk(id, "f", 1, "", [addr, addr, addr], Unset)),
                        Restart, Confirm(id, "")];
            && Legal(GENESIS, run)
            && var w := Final(GENESIS, run);
               && Task(id, addr, [addr, addr]) in w.s.tasks
               && id in w.s.chunks && id in w.h.asked && !Distinct(w.s.chunks[id].replicas) && |w.s.chunks[id].replicas| > w.h.asked[id]
  {
    var id := ChunkKey("f", 1);
    var record := Chunk(id, "f", 1, "", [addr, addr, addr], Unset);
    var prepare, confirm, save := Prepare("f", 1, 2, ["a", "b"], 1), Confirm(id, ""), Overwrite(record);
    var run := [prepare, confirm, save, Restart];
    PartialLoaded(record);
    hide *;
    var w := Final(GENESIS, run);
    Reconfirmed(w, record, addr);
    AnyConfirm(w, id);
    Chain(GENESIS, run, confirm, Next(w, confirm));
    assert run + [confirm] == [prepare, confirm, save, Restart, confirm];
  }

  lemma AnyConfirm(w: World, id: string)
    ensures Enabled(w, Confirm(id, ""))
  {
  }

  /** The first four steps: the partial record is loaded. */
  lemma PartialLoaded(record: Chunk)
    requires record.chunkID == ChunkKey("f", 1) && record.status == Unset
    ensures var id := record.chunkID;
            var run := [Prepare("f", 1, 2, ["a", "b"], 1), Confirm(id, ""), Overwrite(record), Restart];
            && Legal(GENESIS, run)
            && var w := Final(GENESIS, run);
               && id in w.s.chunks && w.s.chunks[id] == record && id in w.h.asked && w.h.asked[id] == 2
  {
    var id := record.chunkID;
    var prepare, confirm, save := Prepare("f", 1, 2, ["a", "b"], 1), Confirm(id, ""), Overwrite(record);
    hide ChunkKey;
    var w1 := Next(GENESIS, prepare);
    var w2 := Next(w1, confirm);
    var w3 := Next(w2, save);
    var w4 := Next(w3, Restart);
    assert w3.s.bucket[id] == record && id in w1.s.chunks && id in w2.s.chunks;
    assert Enabled(GENESIS, prepare) && Enabled(w2, save) && id in w4.h.asked && w4.h.asked[id] == 2;
    assert Enabled(w1, confirm) && Enabled(w3, Restart);
    hide Next, Enabled, Distinct;
    FourSteps(GENESIS, prepare, confirm, save, Restart);
  }

  lemma FourSteps(w: World, a: Op, b: Op, c: Op, d: Op)
    requires Enabled(w, a) && Enabled(Next(w, a), b) && Enabled(Next(Next(w, a), b), c)
    requires Enabled(Next(Next(Next(w, a), b), c), d)
    ensures Legal(w, [a, b, c, d]) && Final(w, [a, b, c, d]) == Next(Next(Next(Next(w, a), b), c), d)
  {
    hide Next, Enabled;
    Chain(w, [], a, Next(w, a));
    assert [] + [a] == [a] && [a] + [b] == [a, b] && [a, b] + [c] == [a, b, c] && [a, b, c] + [d] == [a, b, c, d];
    Chain(w, [a], b, Next(Next(w, a), b));
    Chain(w, [a, b], c, Next(Next(Next(w, a), b), c));
    Chain(w, [a, b, c], d, Next(Next(Next(Next(w, a), b), c), d));
  }

  lemma Chain(w: World, run: seq<Op>, op: Op, w': World)
    requires Legal(w, run) && Enabled(Final(w, run), op) && w' == Next(Final(w, run), op)
    ensures Legal(w, run + [op]) && Final(w, run + [op]) == w'
  {
    hide Next, Enabled;
    FinalConcat(w, run, [op]);
    assert [op][1..] == [];
  }

  lemma Reconfirmed(w: World, record: Chunk, addr: string)
    requires record.chunkID in w.s.chunks && w.s.chunks[record.chunkID] == record && record.replicas == [addr, addr, addr] && addr != ""
    ensures var w' := Next(w, Confirm(record.chunkID, ""));
            && Task(record.chunkID, addr, [addr, addr]) in w'.s.tasks
            && record.chunkID in w'.s.chunks && w'.s.chunks[record.chunkID].replicas == record.replicas && w'.h.asked == w.h.asked
            && !Distinct(record.replicas)
  {
    assert record.replicas[0] == record.replicas[1];
    assert record.replicas[1..] == [addr, addr];
    assert Task(record.chunkID, addr, [addr, addr]) in Spawned(record.(status := Success, hash := ""));
  }

  /** Confirming is not guarded by the status: a chunk confirmed twice has two replications in flight,
      which may PUT it to the same node at the same time. */
  lemma TwoReplications()
    ensures var id := ChunkKey("f", 1);
            var run := [Prepare("f", 1, 2, ["a", "b"], 1), Confirm(id, ""), Confirm(id, "")];
            Legal(GENESIS, run) && Final(GENESIS, run).s.tasks[Task(id, "a", ["b"])] == 2
  {
    var id := ChunkKey("f", 1);
    hide ChunkKey;
    var run := [Prepare("f", 1, 2, ["a", "b"], 1), Confirm(id, ""), Confirm(id, "")];
    var w1 := Next(GENESIS, run[0]);
    var w2 := Next(w1, Confirm(id, ""));
    var w3 := Next(w2, Confirm(id, ""));
    assert run[1..] == [Confirm(id, ""), Confirm(id, "")] && run[1..][1..] == [Confirm(id, "")] && [Confirm(id, "")][1..] == [];
    assert ["a", "b"][1..] == ["b"];
    assert Legal(w2, [Confirm(id, "")]) && Final(w2, [Confirm(id, "")]) == w3;
    assert Legal(w1, run[1..]) && Final(w1, run[1..]) == w3;
  }

  /** What the upload handler persists after a successful upload is not the record it has in
      memory: after a restart the chunk's replicas are node addresses and its hash is gone. */
  lemma UploadRecordLost(w: World, record: Chunk)
    requires Inv(w) && Enabled(w, Overwrite(record))
    requires record.chunkID !in w.h.loaded
    ensures var after := Apply(Apply(w.s, Overwrite(record)), Restart);
            record.chunkID in after.chunks
            && after.chunks[record.chunkID] == record
            && after.chunks[record.chunkID] != w.s.chunks[record.chunkID]
  {
    assert RecordOk(w.h, record.chunkID, w.s.chunks[record.chunkID]);
  }
}
