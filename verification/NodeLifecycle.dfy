/** The life of a storage node on the server: registration, configuration, heartbeats, the
    periodic checker, deletion and server restart, as a timed state machine. */
module NodeLifecycle {
  import opened Records
  import Sched = Scheduler

  const SECOND: int := 1_000_000_000
  const HEARTBEAT_TIMEOUT: int := 90 * SECOND
  const CHECK_INTERVAL: int := 30 * SECOND

  datatype NodeOp =
    | Register(nodeID: string, ip: string, port: int, totalDiskSpace: int, cpu: real, memory: real, disk: real)
    | Configure(nodeID: string, storagePath: string, allocatedSpace: int)
    | Heartbeat(nodeID: string, cpu: real, memory: real, disk: real, usedSpace: int)
    | SpeedTested(nodeID: string, result: SpeedTest)
    | Delete(nodeID: string)
    | Check
    | Restart

  /** The node map in memory and the "Nodes" bucket. */
  datatype State = State(nodes: map<string, NodeRecord>, bucket: map<string, NodeRecord>) {
    function Save(node: NodeRecord): State {
      State(nodes[node.nodeID := node], bucket[node.nodeID := node])
    }
  }

  /** What LoadNodes does to a record: nobody is online after a restart. */
  function Reload(node: NodeRecord): NodeRecord {
    if node.status == Online then node.(status := Offline) else node
  }

  function ReloadAll(nodes: map<string, NodeRecord>): map<string, NodeRecord> {
    map k | k in nodes :: Reload(nodes[k])
  }

  /** The checker's verdict on one node. */
  predicate Expired(node: NodeRecord, now: int) {
    (node.status == Configured || node.status == Online) && now - node.lastHeartbeat > HEARTBEAT_TIMEOUT
  }

  function NewNode(op: NodeOp, now: int): (n: NodeRecord)
    requires op.Register?
    ensures n.nodeID == op.nodeID
  {
    NodeRecord(op.nodeID, op.ip, op.port, Registered, "", op.totalDiskSpace, 0, 0,
               op.cpu, op.memory, op.disk, 0.0, 0.0, 1.0, now, 0, 0, now)
  }

  function Reregistered(n: NodeRecord, op: NodeOp, now: int): NodeRecord
    requires op.Register?
  {
    n.(ip := op.ip, port := op.port, totalDiskSpace := op.totalDiskSpace,
       cpu := op.cpu, memory := op.memory, disk := op.disk, lastHeartbeat := now)
  }

  function ConfiguredTo(n: NodeRecord, path: string, space: int, now: int): NodeRecord {
    n.(storagePath := path, allocatedSpace := space, status := Configured, configuredAt := now)
  }

  function Heard(n: NodeRecord, op: NodeOp, now: int): NodeRecord
    requires op.Heartbeat?
  {
    n.(cpu := op.cpu, memory := op.memory, disk := op.disk, usedSpace := op.usedSpace, lastHeartbeat := now,
       status := if n.status == Configured || n.status == Offline then Online else n.status)
  }

  function Measured(n: NodeRecord, result: SpeedTest, now: int): NodeRecord {
    n.(upload := result.upload, download := result.download, lastSpeedTest := now)
  }

  function Apply(s: State, op: NodeOp, now: int): State {
    match op
    case Register(id, ip, port, total, cpu, memory, disk) =>
      if id in s.nodes then
        s.Save(Reregistered(s.nodes[id], op, now))
      else s.Save(NewNode(op, now))
    case Configure(id, path, space) =>
      if id !in s.nodes || space > s.nodes[id].totalDiskSpace then s
      else s.Save(ConfiguredTo(s.nodes[id], path, space, now))
    case Heartbeat(id, cpu, memory, disk, used) =>
      if id !in s.nodes then s else s.Save(Heard(s.nodes[id], op, now))
    case SpeedTested(id, result) =>
      if id !in s.nodes then s else s.Save(Measured(s.nodes[id], result, now))
    case Delete(id) =>
      if id !in s.nodes || s.nodes[id].status == Online then s
      else State(s.nodes - {id}, s.bucket - {id})
    case Check => CheckAll(s, now)
    case Restart => State(ReloadAll(s.bucket), s.bucket)
  }

  /** The checker visits every node and saves exactly those it marks offline. */
  function CheckAll(s: State, now: int): State {
    State(map k | k in s.nodes :: Checked(s.nodes[k], now), CheckedBucket(s, s.nodes.Keys, now))
  }

  predicate Caught(s: State, visited: set<string>, k: string, now: int) {
    k in visited && k in s.nodes && Expired(s.nodes[k], now)
  }

  /** The bucket when the checker has visited some of the nodes. */
  function CheckedBucket(s: State, visited: set<string>, now: int): map<string, NodeRecord> {
    map k | k in s.bucket.Keys + s.nodes.Keys && (k in s.bucket || Caught(s, visited, k, now)) ::
      if Caught(s, visited, k, now) then Checked(s.nodes[k], now) else s.bucket[k]
  }

  lemma CheckedOneMore(s: State, visited: set<string>, k: string, now: int)
    requires k in s.nodes
    ensures CheckedBucket(s, visited + {k}, now)
            == if Expired(s.nodes[k], now) then CheckedBucket(s, visited, now)[k := Checked(s.nodes[k], now)]
               else CheckedBucket(s, visited, now)
  {
  }

  function Checked(node: NodeRecord, now: int): NodeRecord {
    if Expired(node, now) then node.(status := Offline) else node
  }

  // ---------------------------------------------------------------- timed runs

  datatype Event = Event(op: NodeOp, now: int)

  /** A server with its clock, the time of its last check (or start), and the nodes that have
      been configured since they were last created. */
  datatype Timed = Timed(s: State, now: int, lastCheck: int, configured: set<string>)

  /** Time does not run backwards, and the checker is never more than 30 s late while the
      server is up. */
  predicate Enabled(t: Timed, e: Event) {
    t.now <= e.now && (e.op.Restart? || e.now <= t.lastCheck + CHECK_INTERVAL)
  }

  function Next(t: Timed, e: Event): Timed {
    Timed(Apply(t.s, e.op, e.now), e.now,
          if e.op.Check? || e.op.Restart? then e.now else t.lastCheck,
          match e.op
          case Register(id, _, _, _, _, _, _) => if id in t.s.nodes then t.configured else t.configured - {id}
          case Configure(id, _, space) =>
            if id in t.s.nodes && space <= t.s.nodes[id].totalDiskSpace then t.configured + {id} else t.configured
          case _ => t.configured)
  }

  ghost predicate Legal(t: Timed, run: seq<Event>)
    decreases run
  {
    run == [] || (Enabled(t, run[0]) && Legal(Next(t, run[0]), run[1..]))
  }

  ghost function Final(t: Timed, run: seq<Event>): Timed
    decreases run
  {
    if run == [] then t else Final(Next(t, run[0]), run[1..])
  }

  function Start(now: int): Timed { Timed(State(map[], map[]), now, now, {}) }

  /** The bucket agrees with memory up to what a restart forgets. */
  ghost predicate Mirrors(s: State) {
    s.nodes.Keys == s.bucket.Keys && forall k :: k in s.nodes ==> Reload(s.nodes[k]) == Reload(s.bucket[k])
  }

  predicate NodeOk(node: NodeRecord, lastCheck: int, configured: set<string>) {
    && (node.status == Online ==> node.lastHeartbeat >= lastCheck - HEARTBEAT_TIMEOUT)
    && node.status != Maintenance
    && (node.status != Registered <==> node.nodeID in configured)
  }

  ghost predicate Inv(t: Timed) {
    && Sched.Keyed(t.s.nodes) && Sched.Keyed(t.s.bucket)
    && t.lastCheck <= t.now
    && Mirrors(t.s)
    && forall k :: k in t.s.nodes ==> NodeOk(t.s.nodes[k], t.lastCheck, t.configured)
  }

  lemma SaveKeepsInv(t: Timed, node: NodeRecord, now: int, configured: set<string>)
    requires Inv(t) && t.now <= now
    requires NodeOk(node, t.lastCheck, configured)
    requires forall k :: k != node.nodeID ==> (k in t.configured <==> k in configured)
    ensures Inv(Timed(t.s.Save(node), now, t.lastCheck, configured))
  {
  }

  lemma StepKeepsInv(t: Timed, e: Event)
    requires Inv(t) && Enabled(t, e)
    ensures Inv(Next(t, e))
  {
    var t' := Next(t, e);
    match e.op
    case Check => CheckKeepsInv(t, e.now);
    case Restart => RestartKeepsInv(t, e.now);
    case Delete(id) =>
    case _ =>
      if t'.s != t.s { SaveKeepsInv(t, t'.s.nodes[e.op.nodeID], e.now, t'.configured); }
  }

  lemma CheckKeepsInv(t: Timed, now: int)
    requires Inv(t) && t.now <= now
    ensures Inv(Next(t, Event(Check, now)))
  {
    var s, s' := t.s, CheckAll(t.s, now);
    assert s'.nodes.Keys == s.nodes.Keys && s'.bucket.Keys == s.bucket.Keys;
    forall k | k in s.nodes ensures NodeOk(s'.nodes[k], now, t.configured) {
      assert NodeOk(s.nodes[k], t.lastCheck, t.configured);
    }
  }

  lemma RestartKeepsInv(t: Timed, now: int)
    requires Inv(t) && t.now <= now
    ensures Inv(Next(t, Event(Restart, now)))
  {
    var s' := Apply(t.s, Restart, now);
    forall k | k in s'.nodes ensures NodeOk(s'.nodes[k], now, t.configured) {
      assert NodeOk(t.s.nodes[k], t.lastCheck, t.configured);
    }
  }

  lemma {:induction false} RunKeepsInv(t: Timed, run: seq<Event>)
    requires Inv(t) && Legal(t, run)
    ensures Inv(Final(t, run))
    decreases run
  {
    if run != [] {
      StepKeepsInv(t, run[0]);
      RunKeepsInv(Next(t, run[0]), run[1..]);
    }
  }

  // ------------------------------------------------------------------ theorems

  /** In every run, at any moment until the next check is due, an online node was last heard
      from (heartbeat or registration) at most 120 s ago. */
  lemma BoundedStaleness(start: int, run: seq<Event>, when: int, id: string)
    requires Legal(Start(start), run)
    requires var t := Final(Start(start), run);
             t.now <= when <= t.lastCheck + 30_000_000_000 && id in t.s.nodes && t.s.nodes[id].status == Online
    ensures when - Final(Start(start), run).s.nodes[id].lastHeartbeat <= 120_000_000_000
  {
    assert Inv(Start(start));
    RunKeepsInv(Start(start), run);
  }

  /** Right after a check, every online or configured node is within the timeout; the checker
      only ever moves configured or online nodes to offline. */
  lemma CheckIsExact(t: Timed, now: int, id: string)
    requires id in t.s.nodes
    ensures var before, after := t.s.nodes[id], Next(t, Event(Check, now)).s.nodes[id];
            && (after.status == Online || after.status == Configured ==> now - after.lastHeartbeat <= 90_000_000_000)
            && after == before.(status := after.status)
            && (after.status != before.status <==>
                  (before.status == Online || before.status == Configured) && now - before.lastHeartbeat > 90_000_000_000)
            && (after.status != before.status ==> after.status == Offline)
  {
  }

  /** So placement only ever uses nodes heard from within the last 120 s, whatever the run. */
  lemma PlacementIsFresh(start: int, run: seq<Event>, when: int, n: int, exclude: set<string>, sel: seq<NodeRecord>, x: NodeRecord)
    requires Legal(Start(start), run)
    requires var t := Final(Start(start), run);
             t.now <= when <= t.lastCheck + 30_000_000_000 && Sched.IsSelection(t.s.nodes, n, exclude, sel)
    requires x in sel
    ensures when - x.lastHeartbeat <= 120_000_000_000
    ensures x.nodeID in Final(Start(start), run).configured
  {
    assert Inv(Start(start));
    RunKeepsInv(Start(start), run);
    BoundedStaleness(start, run, when, x.nodeID);
  }

  /** In every run, restarts included: a node's status is not "registered" exactly when it has been
      configured since it was last created, and nobody is ever in maintenance. */
  lemma TwoPhaseAdmission(start: int, run: seq<Event>, id: string)
    requires Legal(Start(start), run) && id in Final(Start(start), run).s.nodes
    ensures var t := Final(Start(start), run);
            (t.s.nodes[id].status != Registered <==> id in t.configured)
            && t.s.nodes[id].status != Maintenance
  {
    assert Inv(Start(start));
    RunKeepsInv(Start(start), run);
  }

  /** In every run a heartbeat leaves a known node online exactly when it has been configured since it was
      last created. */
  lemma HeartbeatAdmits(start: int, run: seq<Event>, e: Event)
    requires Legal(Start(start), run) && e.op.Heartbeat? && e.op.nodeID in Final(Start(start), run).s.nodes
    ensures var t := Final(Start(start), run);
            var id := e.op.nodeID;
            id in Next(t, e).s.nodes && (Next(t, e).s.nodes[id].status == Online <==> id in t.configured)
  {
    assert Inv(Start(start));
    RunKeepsInv(Start(start), run);
  }

  lemma StepKeepsAdmitted(t: Timed, e: Event, id: string)
    requires Inv(t) && Enabled(t, e) && id in t.s.nodes && id in t.configured && e.op != Delete(id)
    ensures id in Next(t, e).s.nodes && id in Next(t, e).configured
  {
  }

  lemma {:induction false} RunKeepsAdmitted(t: Timed, run: seq<Event>, id: string)
    requires Inv(t) && Legal(t, run) && id in t.s.nodes && id in t.configured
    requires forall e :: e in run ==> e.op != Delete(id)
    ensures id in Final(t, run).s.nodes && id in Final(t, run).configured
    decreases run
  {
    if run != [] {
      assert run[0] in run;
      assert forall e :: e in run[1..] ==> e in run;
      StepKeepsInv(t, run[0]);
      StepKeepsAdmitted(t, run[0], id);
      hide Inv, Enabled, Next;
      RunKeepsAdmitted(Next(t, run[0]), run[1..], id);
    }
  }

  lemma {:induction false} FinalConcat(t: Timed, run: seq<Event>, more: seq<Event>)
    ensures Final(t, run + more) == Final(Final(t, run), more)
    ensures Legal(t, run + more) <==> Legal(t, run) && Legal(Final(t, run), more)
    decreases run
  {
    if run == [] {
      assert run + more == more;
    } else {
      assert (run + more)[1..] == run[1..] + more;
      FinalConcat(Next(t, run[0]), run[1..], more);
    }
  }

  /** A node that was online before a restart is offline after it, and online again with its first heartbeat,
      whatever else happens in between, unless it is deleted. */
  lemma BackAfterRestart(start: int, run: seq<Event>, restart: Event, between: seq<Event>, beat: Event)
    requires restart.op.Restart? && beat.op.Heartbeat?
    requires Legal(Start(start), run + [restart] + between + [beat])
    requires var id := beat.op.nodeID;
             && id in Final(Start(start), run).s.nodes && Final(Start(start), run).s.nodes[id].status == Online
             && forall e :: e in between ==> e.op != Delete(id)
    ensures var id := beat.op.nodeID;
            var down, back := Final(Start(start), run + [restart]), Final(Start(start), run + [restart] + between + [beat]);
            && id in down.s.nodes && down.s.nodes[id].status == Offline
            && id in back.s.nodes && back.s.nodes[id].status == Online
  {
    var t0, id := Start(start), beat.op.nodeID;
    var t := Final(t0, run);
    FinalConcat(t0, run + [restart] + between, [beat]);
    FinalConcat(t0, run + [restart], between);
    FinalConcat(t0, run, [restart]);
    OneEvent(t, restart);
    assert Inv(t0);
    RunKeepsInv(t0, run);
    RestartedNode(t, restart, id);
    StepKeepsInv(t, restart);
    RunKeepsAdmitted(Next(t, restart), between, id);
    OneEvent(Final(t0, run + [restart] + between), beat);
    HeartbeatAdmits(start, run + [restart] + between, beat);
    hide *;
  }

  lemma OneEvent(t: Timed, e: Event)
    ensures Final(t, [e]) == Next(t, e) && (Legal(t, [e]) <==> Enabled(t, e))
  {
    assert [e][1..] == [];
  }

  lemma RestartedNode(t: Timed, e: Event, id: string)
    requires Inv(t) && e.op.Restart? && id in t.s.nodes && t.s.nodes[id].status == Online
    ensures var t' := Next(t, e);
            id in t'.s.nodes && t'.s.nodes[id].status == Offline && id in t'.configured
  {
    assert NodeOk(t.s.nodes[id], t.lastCheck, t.configured);
  }

  /** The one door to "online" is a heartbeat of a configured or offline node. */
  lemma OnlineOnlyByHeartbeat(start: int, run: seq<Event>, e: Event, id: string)
    requires Legal(Start(start), run) && Enabled(Final(Start(start), run), e)
    requires var t := Final(Start(start), run);
             id in Next(t, e).s.nodes && Next(t, e).s.nodes[id].status == Online
             && !(id in t.s.nodes && t.s.nodes[id].status == Online)
    ensures e.op.Heartbeat? && e.op.nodeID == id
    ensures id in Final(Start(start), run).s.nodes
            && Final(Start(start), run).s.nodes[id].status in {Configured, Offline}
  {
    assert Inv(Start(start));
    RunKeepsInv(Start(start), run);
  }

  /** From every reachable state, a restart brings back the same nodes with "online" replaced
      by "offline" and every other field unchanged. */
  lemma RestartSimulation(start: int, run: seq<Event>, now: int)
    requires Legal(Start(start), run)
    ensures var before := Final(Start(start), run).s.nodes;
            var after := Apply(Final(Start(start), run).s, Restart, now).nodes;
            && after.Keys == before.Keys
            && forall id :: id in before ==>
                 after[id] == before[id].(status := if before[id].status == Online then Offline else before[id].status)
  {
    assert Inv(Start(start));
    RunKeepsInv(Start(start), run);
  }

  // -------------------------------------------------------- a node's fields, from the run

  /** What the run has said about a node since it was created: its last registration, the last registration or
      heartbeat, and the last heartbeat, accepted configuration and speed test, if any. */
  datatype Told = Told(createdAt: int, registered: Event, contact: Event, heard: Option<Event>, placed: Option<Event>, measured: Option<Event>)

  ghost function Story(start: int, run: seq<Event>, id: string): Option<Told>
    decreases |run|
  {
    if run == [] then None
    else
      var front, e := run[..|run| - 1], run[|run| - 1];
      Continued(Story(start, front, id), Final(Start(start), front).s, e, id)
  }

  /** One more event. A configuration that wants more space than the node has is refused, as is the deletion of
      an online node. */
  function Continued(told: Option<Told>, s: State, e: Event, id: string): Option<Told> {
    match (e.op, told)
    case (Register(x, _, _, _, _, _, _), None) => if x == id then Some(Told(e.now, e, e, None, None, None)) else None
    case (_, None) => None
    case (Register(x, _, _, _, _, _, _), Some(t)) => if x == id then Some(t.(registered := e, contact := e)) else told
    case (Configure(x, _, space), Some(t)) =>
      if x == id && t.registered.op.Register? && space <= t.registered.op.totalDiskSpace then Some(t.(placed := Some(e))) else told
    case (Heartbeat(x, _, _, _, _), Some(t)) => if x == id then Some(t.(contact := e, heard := Some(e))) else told
    case (SpeedTested(x, _), Some(t)) => if x == id then Some(t.(measured := Some(e))) else told
    case (Delete(x), Some(_)) => if x == id && !(id in s.nodes && s.nodes[id].status == Online) then None else told
    case (Check, _) => told
    case (Restart, _) => told
  }

  ghost predicate ToldOk(t: Told, id: string) {
    && t.registered.op.Register? && t.registered.op.nodeID == id
    && (t.contact.op.Register? || t.contact.op.Heartbeat?)
    && (t.heard.Some? ==> t.heard.value.op.Heartbeat?)
    && (t.placed.Some? ==> t.placed.value.op.Configure?)
    && (t.measured.Some? ==> t.measured.value.op.SpeedTested?)
  }

  /** The node's record, but for its status. */
  ghost predicate Follows(n: NodeRecord, t: Told, id: string) {
    && ToldOk(t, id)
    && n.nodeID == id && n.createdAt == t.createdAt && n.onlineRate == 1.0
    && n.ip == t.registered.op.ip && n.port == t.registered.op.port && n.totalDiskSpace == t.registered.op.totalDiskSpace
    && n.cpu == t.contact.op.cpu && n.memory == t.contact.op.memory && n.disk == t.contact.op.disk
    && n.lastHeartbeat == t.contact.now
    && n.usedSpace == (if t.heard.Some? then t.heard.value.op.usedSpace else 0)
    && n.storagePath == (if t.placed.Some? then t.placed.value.op.storagePath else "")
    && n.allocatedSpace == (if t.placed.Some? then t.placed.value.op.allocatedSpace else 0)
    && n.configuredAt == (if t.placed.Some? then t.placed.value.now else 0)
    && n.upload == (if t.measured.Some? then t.measured.value.op.result.upload else 0.0)
    && n.download == (if t.measured.Some? then t.measured.value.op.result.download else 0.0)
    && n.lastSpeedTest == (if t.measured.Some? then t.measured.value.now else 0)
  }

  ghost predicate StoryOk(s: State, told: Option<Told>, id: string) {
    && (id in s.nodes <==> told.Some?)
    && (told.Some? ==> Follows(s.nodes[id], told.value, id))
  }

  lemma RegisterFollows(s: State, e: Event, told: Option<Told>, id: string)
    requires StoryOk(s, told, id) && e.op.Register? && Sched.Keyed(s.nodes)
    ensures StoryOk(Apply(s, e.op, e.now), Continued(told, s, e, id), id)
  {
    if e.op.nodeID == id {
      var n := Apply(s, e.op, e.now).nodes[id];
      assert Follows(n, Continued(told, s, e, id).value, id);
    } else {
      hide Follows;
    }
  }

  lemma AboutFollows(s: State, e: Event, told: Option<Told>, id: string)
    requires StoryOk(s, told, id) && (e.op.Configure? || e.op.Heartbeat? || e.op.SpeedTested?) && Sched.Keyed(s.nodes)
    ensures StoryOk(Apply(s, e.op, e.now), Continued(told, s, e, id), id)
  {
    if e.op.nodeID == id && told.Some? {
      var n := Apply(s, e.op, e.now).nodes[id];
      SaidFollows(s.nodes[id], told.value, s, e, id);
      hide Follows, Continued, Reregistered, ConfiguredTo, Heard, Measured;
    } else {
      hide Follows, ConfiguredTo, Heard, Measured;
    }
  }

  lemma SaidFollows(n: NodeRecord, told: Told, s: State, e: Event, id: string)
    requires (e.op.Configure? || e.op.Heartbeat? || e.op.SpeedTested?) && e.op.nodeID == id
    requires Follows(n, told, id) && id in s.nodes && s.nodes[id] == n
    ensures var told' := Continued(Some(told), s, e, id);
            told'.Some? && id in Apply(s, e.op, e.now).nodes && Follows(Apply(s, e.op, e.now).nodes[id], told'.value, id)
  {
  }

  lemma CheckFollows(s: State, e: Event, told: Option<Told>, id: string)
    requires StoryOk(s, told, id) && e.op.Check?
    ensures StoryOk(Apply(s, e.op, e.now), Continued(told, s, e, id), id)
  {
  }

  lemma StepFollows(t: Timed, e: Event, told: Option<Told>, id: string)
    requires Inv(t) && StoryOk(t.s, told, id)
    ensures StoryOk(Next(t, e).s, Continued(told, t.s, e, id), id)
  {
    match e.op
    case Register(_, _, _, _, _, _, _) => RegisterFollows(t.s, e, told, id);
    case Check => CheckFollows(t.s, e, told, id);
    case Restart => RestartFollows(t, e, told, id);
    case Delete(_) => DeleteFollows(t.s, e, told, id);
    case _ => AboutFollows(t.s, e, told, id);
  }

  lemma DeleteFollows(s: State, e: Event, told: Option<Told>, id: string)
    requires StoryOk(s, told, id) && e.op.Delete?
    ensures StoryOk(Apply(s, e.op, e.now), Continued(told, s, e, id), id)
  {
    hide Follows;
  }

  lemma RestartFollows(t: Timed, e: Event, told: Option<Told>, id: string)
    requires Inv(t) && StoryOk(t.s, told, id) && e.op.Restart?
    ensures StoryOk(Apply(t.s, e.op, e.now), Continued(told, t.s, e, id), id)
  {
    if id in t.s.nodes { assert Reload(t.s.nodes[id]) == Reload(t.s.bucket[id]); }
  }

  /** In every run the fields of every node are the ones last reported: address and size by its last
      registration, load by its last registration or heartbeat, and so on since it was created. And exactly the
      nodes registered and not deleted since are known. */
  lemma {:induction false} NodeFromRun(start: int, run: seq<Event>, id: string)
    requires Legal(Start(start), run)
    ensures StoryOk(Final(Start(start), run).s, Story(start, run, id), id)
    decreases |run|
  {
    if run != [] {
      var front, e := run[..|run| - 1], run[|run| - 1];
      assert run == front + [e];
      FinalConcat(Start(start), front, [e]);
      OneEvent(Final(Start(start), front), e);
      NodeFromRun(start, front, id);
      assert Inv(Start(start));
      RunKeepsInv(Start(start), front);
      hide Inv, Legal, Final, StoryOk, Continued;
      StepFollows(Final(Start(start), front), e, Story(start, front, id), id);
    }
  }
}
