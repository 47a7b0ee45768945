/** The replication protocol as a state machine: one master, any number of agents. Steps that are
    not enabled change nothing, so every sequence of steps is a run. */
module Protocol {
  import opened Events
  import opened WalLog
  import opened ChangeStores
  import opened Following
  import opened Segments

  /** What Publish accepted: a raw key and its bytes. Version v of the log is log[v - 1]. */
  datatype Pub = Pub(key: Key, bin: Bytes)

  /** A publish between the creation of its object and the end of its append. The store writes in
      place: creating truncates the object, then the bytes follow, `offset` of them so far. */
  datatype Put = Put(pub: Pub, offset: nat)

  type Data = map<StorePath, Bytes>

  /** `log` is what was appended, `wal` the log file; they differ in the status of items only. `torn`
      is history: the versions whose overlapping was written by an append that got no further.
      `pending` holds the versions that are appended but not broadcast yet, in append order. */
  datatype Master = Master(log: seq<Pub>, wal: seq<Item>, torn: set<nat>, store: Data, inflight: seq<Put>,
                           pending: seq<nat>)

  /** An agent's subscription, from the request to the stream. While the backlog is read, `left` is
      what remains of the log file. In a stream, `queue` is the master's channel of capacity
      `room`, and `wire` what left it and was not received yet. A channel that is full at a
      broadcast is unregistered and closed; one that another handler unregistered stays open.
      `saving` is the version of a change that is applied but not saved. The rest is history:
      `snap` and `lost` are the latest version and the torn versions when the log file was opened;
      `joined` and `received`, how much had been broadcast when the channel was registered, and
      how many NORMAL messages were received. */
  datatype Session =
    | Down
    | Requested
    | Reading(snap: nat, lost: set<nat>, left: seq<Item>, backlog: seq<Envelope>)
    | Streaming(snap: nat, lost: set<nat>, wire: seq<Envelope>, queue: seq<Envelope>, room: nat, registered: bool,
                open: bool, recovering: bool, saving: Option<nat>, joined: nat, received: nat)

  /** `cursor` is what the agent's own log says; `failures` are the errors that ended sessions. */
  datatype Agent = Agent(store: Data, cursor: nat, session: Session, failures: set<StreamError>)

  type AgentId = nat

  datatype Cluster = Cluster(master: Master, agents: map<AgentId, Agent>)

  datatype Step =
    // The master: create the object, write n more bytes of it, append, give up (having marked the
    // overlapped entry or not), broadcast, restart of the process. A stop inside an append is the
    // Fail step taken just before the restart.
    | Create(pub: Pub)
    | Write(i: nat, n: nat)
    | Append(i: nat)
    | Fail(i: nat, tears: bool)
    | Broadcast(i: nat)
    | MasterRestart
    // The subscription of agent a on the master's side. The backlog is read item by item, with the
    // store not locked. Another session of the same agent may remove its registration at any time.
    | Subscribe(a: AgentId)
    | Snapshot(a: AgentId)
    | Load(a: AgentId)
    | Register(a: AgentId)
    | Unregister(a: AgentId)
    | Send(a: AgentId)
    // The agent: receive (and apply) one message or the end of the stream, save its version, stop in the middle of
    // replacing a file, lose the session or restart. A save that follows the loss of a session is
    // the Save step taken just before it.
    | Receive(a: AgentId)
    | Save(a: AgentId)
    | StopInApply(a: AgentId)
    | Disconnect(a: AgentId)

  // ---------------------------------------------------------------------------------------------
  // The steps

  function NormalOf(log: seq<Pub>, version: nat): Envelope
    requires 0 < version <= |log|
  {
    var pub := log[version - 1];
    Envelope(FromLog(pub.key.kind), pub.key.host, pub.bin, version, Normal)
  }

  function Without<T>(s: seq<T>, i: nat): seq<T>
    requires i < |s|
  {
    s[..i] + s[i + 1..]
  }

  function KeysIn(log: seq<Pub>): seq<Key> {
    seq(|log|, i requires 0 <= i < |log| => log[i].key)
  }

  /** What a follower at `from` would be sent if the whole backlog were read now. */
  function Backlog(canon: Canon, m: Master, from: nat): seq<Envelope> {
    SinceOf(m.wal, from, canon, m.store)
  }

  /** The non-blocking send of a broadcast: a full channel is closed and unregistered. */
  function Offered(session: Session, msg: Envelope): Session {
    if !session.Streaming? || !session.registered then session
    else if |session.queue| < session.room then session.(queue := session.queue + [msg])
    else session.(registered := false, open := false)
  }

  /** The object after a write at an offset; past its end it is filled up with zeros. */
  function WriteAt(was: Bytes, offset: nat, chunk: Bytes): Bytes {
    if chunk == [] then was
    else
      var end := offset + |chunk|;
      seq(if |was| < end then end else |was|, k requires 0 <= k =>
        if offset <= k < end then chunk[k - offset] else if k < |was| then was[k] else 0)
  }

  function Stored(m: Master, path: StorePath): Bytes {
    if path in m.store then m.store[path] else []
  }

  function Created(canon: Canon, m: Master, p: Pub): Master {
    m.(store := m.store[canon(p.key) := []], inflight := m.inflight + [Put(p, 0)])
  }

  function Written(canon: Canon, m: Master, i: nat, n: nat): Master
    requires i < |m.inflight|
  {
    var put := m.inflight[i];
    var path, rest := canon(put.pub.key), put.pub.bin[Least(put.offset, |put.pub.bin|)..];
    var chunk := rest[..Least(n, |rest|)];
    m.(store := m.store[path := WriteAt(Stored(m, path), put.offset, chunk)],
       inflight := m.inflight[i := put.(offset := put.offset + |chunk|)])
  }

  predicate Complete(put: Put) {
    put.offset >= |put.pub.bin|
  }

  function Logged(m: Master, i: nat): Master
    requires i < |m.inflight|
  {
    var pub, version := m.inflight[i].pub, |m.log| + 1;
    m.(log := m.log + [pub], wal := Appended(m.wal, version, pub.key), inflight := Without(m.inflight, i),
       pending := m.pending + [version])
  }

  /** Whether an append can stop with the overlapped entry written and the new one not: there is such
      an entry, and it lies in another segment file. */
  predicate Tears(m: Master, put: Put) {
    var p := FindOnTop(m.wal, put.pub.key);
    Complete(put) && p >= 0 && SegmentNumber(m.wal[p].index) != SegmentNumber(|m.log| + 1)
  }

  function Failed(m: Master, i: nat, tears: bool): Master
    requires i < |m.inflight|
  {
    var put := m.inflight[i];
    var left := m.(inflight := Without(m.inflight, i));
    if !tears || !Tears(m, put) then left
    else
      var p := FindOnTop(m.wal, put.pub.key);
      left.(wal := Mark(m.wal, p), torn := m.torn + {m.wal[p].index})
  }

  predicate Accepted(p: Pub) {
    p.key.host != "" && p.bin != []
  }

  function NextMaster(canon: Canon, m: Master, step: Step): Master {
    match step
    case Create(p) =>
      if Accepted(p) then Created(canon, m, p) else m
    case Write(i, n) =>
      if i < |m.inflight| then Written(canon, m, i, n) else m
    case Append(i) =>
      if i < |m.inflight| && Complete(m.inflight[i]) && |m.log| + 1 < MAX_INDEX then Logged(m, i) else m
    case Fail(i, tears) =>
      if i < |m.inflight| then Failed(m, i, tears) else m
    case Broadcast(i) =>
      if i < |m.pending| then m.(pending := Without(m.pending, i)) else m
    case MasterRestart => m.(inflight := [], pending := [])
    case _ => m
  }

  /** The end of a session in an error. After one that is not retried the agent's process ends, and a
      later subscription is that of a new one. */
  function Ended(agent: Agent, e: StreamError): Agent {
    agent.(session := Down, failures := agent.failures + {e})
  }

  /** How many versions have been broadcast, when broadcasts go out in version order. */
  function Broadcasts(m: Master): nat {
    if |m.pending| <= |m.log| then |m.log| - |m.pending| else 0
  }

  /** The receive of one message: skipped, applied, or the end of the session. */
  function Received(canon: Canon, agent: Agent): Agent
    requires agent.session.Streaming? && agent.session.wire != []
  {
    var s := agent.session;
    var change := s.wire[0];
    var s' := s.(wire := s.wire[1..], recovering := StillRecovering(s.recovering, change),
                 received := if change.tier.Recover? then s.received else s.received + 1);
    match Decide(agent.cursor, s.recovering, change)
    case Stop(e) => Ended(agent, e)
    case Skip => agent.(session := s')
    case Apply =>
      match ApplyError(change)
      case Some(e) => Ended(agent, NotApplied(e))
      case None => agent.(store := agent.store[canon(KeyOf(change)) := change.bin],
                          session := s'.(saving := Some(change.version)))
  }

  /** The steps of one agent's subscription. */
  function NextAgent(canon: Canon, m: Master, agent: Agent, step: Step): Agent {
    var s := agent.session;
    match step
    case Subscribe(_) =>
      if !s.Down? then agent
      else if agent.cursor > |m.log| then Ended(agent, FutureVersion)
      else agent.(session := Requested)
    case Snapshot(_) =>
      if !s.Requested? then agent
      else agent.(session := Reading(|m.log|, m.torn, m.wal, []))
    case Load(_) =>
      if !s.Reading? || s.left == [] then agent
      else agent.(session := s.(left := s.left[1..], backlog := s.backlog
                                + Entry(s.left[0], agent.cursor, canon, m.store)))
    case Register(_) =>
      if !s.Reading? || s.left != [] then agent
      else agent.(session := Streaming(s.snap, s.lost, [], s.backlog, |s.backlog| + SUBSCRIBER_BUFFER, true, true, true,
                                       None, Broadcasts(m), 0))
    case Unregister(_) =>
      if !s.Streaming? then agent else agent.(session := s.(registered := false))
    case Send(_) =>
      if !s.Streaming? || s.queue == [] then agent
      else agent.(session := s.(wire := s.wire + [s.queue[0]], queue := s.queue[1..]))
    case Receive(_) =>
      if !s.Streaming? || s.saving.Some? then agent
      else if s.wire != [] then Received(canon, agent)
      else if s.queue == [] && !s.open then agent.(session := Down)
      else agent
    case Save(_) =>
      if !s.Streaming? || s.saving.None? then agent
      else agent.(cursor := s.saving.value, session := s.(saving := None))
    case StopInApply(_) =>
      if !s.Streaming? || s.wire == [] || s.saving.Some?
         || !Decide(agent.cursor, s.recovering, s.wire[0]).Apply? || ApplyError(s.wire[0]).Some?
      then agent
      else agent.(store := agent.store - {canon(KeyOf(s.wire[0]))}, session := Down)
    case Disconnect(_) => agent.(session := Down)
    case _ => agent
  }

  predicate OfAgent(step: Step) {
    match step
    case Create(_) => false
    case Write(_, _) => false
    case Append(_) => false
    case Fail(_, _) => false
    case Broadcast(_) => false
    case MasterRestart => false
    case _ => true
  }

  function Next(canon: Canon, c: Cluster, step: Step): Cluster {
    if OfAgent(step) then
      if step.a !in c.agents then c
      else c.(agents := c.agents[step.a := NextAgent(canon, c.master, c.agents[step.a], step)])
    else
      Cluster(NextMaster(canon, c.master, step), map a | a in c.agents :: Reached(c.master, c.agents[a], step))
  }

  /** What a step of the master does to an agent's session. */
  function Reached(m: Master, agent: Agent, step: Step): Agent {
    match step
    case Broadcast(i) =>
      if i < |m.pending| && 0 < m.pending[i] <= |m.log|
      then agent.(session := Offered(agent.session, NormalOf(m.log, m.pending[i])))
      else agent
    case MasterRestart => agent.(session := Down)
    case _ => agent
  }

  const EMPTY := Master([], [], {}, map[], [], [])

  function Init(ids: set<AgentId>): Cluster {
    Cluster(EMPTY, map a | a in ids :: Agent(map[], 0, Down, {}))
  }

  function Exec(canon: Canon, c: Cluster, steps: seq<Step>): Cluster {
    if steps == [] then c else Next(canon, Exec(canon, c, steps[..|steps| - 1]), steps[|steps| - 1])
  }
}
