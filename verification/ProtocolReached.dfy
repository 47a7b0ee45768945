/** Runs that reach what the theorems set apart: a change read while its object was empty, a torn log,
    and an orphaned subscription. */
module ProtocolReached {
  import opened Events
  import opened WalLog
  import opened ChangeStores
  import opened Following
  import opened Protocol
  import opened ProtocolBasics
  import opened ProtocolAgreement
  import opened ProtocolConvergence
  import opened ProtocolShape
  import opened ProtocolSafety
  import opened ProtocolLimits

  // ---------------------------------------------------------------------------------------------
  // Steps of the master alone, and of the agent alone

  ghost predicate MasterOnly(steps: seq<Step>) {
    forall i :: 0 <= i < |steps| ==> !OfAgent(steps[i]) && !steps[i].MasterRestart?
  }

  lemma {:induction false} MasterRuns(m: Master, agent: Agent, steps: seq<Step>)
    requires MasterOnly(steps) && !agent.session.Streaming?
    ensures Exec(CANON, One(m, agent), steps) == One(MasterExec(CANON, m, steps), agent)
  {
    if steps != [] {
      var front, step := steps[..|steps| - 1], steps[|steps| - 1];
      MasterRuns(m, agent, front);
      hide NextMaster, Reached, Next, OfAgent;
      OneNext(MasterExec(CANON, m, front), agent, step);
      NotReached(MasterExec(CANON, m, front), agent, step);
    }
  }

  lemma MasterNext(m: Master, steps: seq<Step>, k: nat)
    requires k < |steps|
    ensures MasterExec(CANON, m, steps[..k + 1]) == NextMaster(CANON, MasterExec(CANON, m, steps[..k]), steps[k])
  {
    hide NextMaster;
    assert steps[..k + 1][..k] == steps[..k];
  }

  lemma MasterNothing(m: Master, steps: seq<Step>)
    ensures MasterExec(CANON, m, steps[..0]) == m
  {
  }

  lemma AgentRuns(m: Master, agent: Agent, steps: seq<Step>)
    requires StepsOf(0, steps)
    ensures Exec(CANON, One(m, agent), steps) == One(m, AgentExec(CANON, m, agent, steps))
  {
    ExecIsAgentExec(CANON, One(m, agent), 0, steps);
    hide Exec, AgentExec;
  }

  lemma AgentNothing(m: Master, agent: Agent, steps: seq<Step>)
    ensures AgentExec(CANON, m, agent, steps[..0]) == agent
  {
  }

  lemma AgentStep(m: Master, agent: Agent, steps: seq<Step>, k: nat)
    requires k < |steps|
    ensures AgentExec(CANON, m, agent, steps[..k + 1])
         == NextAgent(CANON, m, AgentExec(CANON, m, agent, steps[..k]), steps[k])
  {
    hide NextAgent;
    assert steps[..k + 1][..k] == steps[..k];
  }

  /** The first publish, from its beginning to its broadcast. */
  const PUBLISH: seq<Step> := [Create(SECOND), Write(0, 1), Append(0), Broadcast(0)]

  lemma PublishRuns()
    ensures MasterOnly(PUBLISH) && MasterExec(CANON, EMPTY, PUBLISH) == AFTER_LATE
  {
    hide MasterExec, NextMaster;
    FirstPublish(SECOND);
    MasterNothing(EMPTY, PUBLISH);
    MasterNext(EMPTY, PUBLISH, 0);
    MasterNext(EMPTY, PUBLISH, 1);
    MasterNext(EMPTY, PUBLISH, 2);
    MasterNext(EMPTY, PUBLISH, 3);
    assert PUBLISH[..4] == PUBLISH;
  }

  // ---------------------------------------------------------------------------------------------
  // A change read while its object was empty

  /** A second publish creates its object; then an agent subscribes, and receives what it was sent. */
  const READ: seq<Step> := [Subscribe(0), Snapshot(0), Load(0), Register(0), Send(0), Receive(0)]

  const HOLLOW := Envelope(Dns, "h", [], 1, Recover)

  lemma ReadSteps()
    ensures NextAgent(CANON, NEXT_ONE, FRESH, Subscribe(0)) == FRESH.(session := Requested)
    ensures NextAgent(CANON, NEXT_ONE, FRESH.(session := Requested), Snapshot(0))
         == FRESH.(session := Reading(1, {}, [ITEM], []))
    ensures NextAgent(CANON, NEXT_ONE, FRESH.(session := Reading(1, {}, [ITEM], [])), Load(0))
         == FRESH.(session := Reading(1, {}, [], [HOLLOW]))
  {
    assert Entry(ITEM, 0, CANON, map["h" := []]) == [HOLLOW];
    assert [ITEM][1..] == [] && [] + [HOLLOW] == [HOLLOW];
  }

  function HollowSession(wire: seq<Envelope>, queue: seq<Envelope>): Session {
    Streaming(1, {}, wire, queue, SUBSCRIBER_BUFFER + 1, true, true, true, None, 1, 0)
  }

  lemma HollowSteps()
    ensures NextAgent(CANON, NEXT_ONE, FRESH.(session := Reading(1, {}, [], [HOLLOW])), Register(0))
         == FRESH.(session := HollowSession([], [HOLLOW]))
    ensures NextAgent(CANON, NEXT_ONE, FRESH.(session := HollowSession([], [HOLLOW])), Send(0))
         == FRESH.(session := HollowSession([HOLLOW], []))
    ensures NextAgent(CANON, NEXT_ONE, FRESH.(session := HollowSession([HOLLOW], [])), Receive(0))
         == FRESH.(session := Down, failures := {NotApplied(BinRequired)})
  {
    hide Entry;
    assert [] + [HOLLOW] == [HOLLOW] && [HOLLOW][1..] == [];
    assert Decide(0, true, HOLLOW) == Apply && ApplyError(HOLLOW) == Some(BinRequired);
  }

  lemma ReadRuns()
    ensures StepsOf(0, READ)
    ensures AgentExec(CANON, NEXT_ONE, FRESH, READ) == FRESH.(session := Down, failures := {NotApplied(BinRequired)})
  {
    hide AgentExec, NextAgent;
    ReadSteps();
    HollowSteps();
    AgentNothing(NEXT_ONE, FRESH, READ);
    AgentStep(NEXT_ONE, FRESH, READ, 0);
    AgentStep(NEXT_ONE, FRESH, READ, 1);
    AgentStep(NEXT_ONE, FRESH, READ, 2);
    AgentStep(NEXT_ONE, FRESH, READ, 3);
    AgentStep(NEXT_ONE, FRESH, READ, 4);
    AgentStep(NEXT_ONE, FRESH, READ, 5);
    assert READ[..6] == READ;
  }

  /** Two publishes of one name, one after the other, and an agent that subscribes when the second has
      created its object: its session ends in the error that is not retried. */
  lemma EmptyIsReached()
    ensures var c := Exec(CANON, One(EMPTY, FRESH), PUBLISH + [Create(FIRST)] + READ);
            0 in c.agents && c.agents[0].session.Down? && c.agents[0].failures == {NotApplied(BinRequired)}
            && !Retried(NotApplied(BinRequired))
  {
    hide Exec, MasterExec, AgentExec, NextMaster;
    PublishRuns();
    SecondPublish();
    MasterExecConcat(CANON, EMPTY, PUBLISH, [Create(FIRST)]);
    MasterExecOne(CANON, AFTER_LATE, Create(FIRST));
    MasterRuns(EMPTY, FRESH, PUBLISH + [Create(FIRST)]);
    ReadRuns();
    AgentRuns(NEXT_ONE, FRESH, READ);
    ExecConcat(One(EMPTY, FRESH), PUBLISH + [Create(FIRST)], READ);
  }

  // ---------------------------------------------------------------------------------------------
  // An orphaned subscription

  /** An agent subscribes, and another handler takes its registration out. */
  const ORPHAN: seq<Step> := [Subscribe(0), Snapshot(0), Register(0), Unregister(0)]

  const ORPHANED := FRESH.(session := Streaming(0, {}, [], [], SUBSCRIBER_BUFFER, false, true, true, None, 0, 0))

  lemma OrphanSteps()
    ensures NextAgent(CANON, EMPTY, FRESH.(session := Reading(0, {}, [], [])), Register(0))
         == ORPHANED.(session := ORPHANED.session.(registered := true))
    ensures NextAgent(CANON, EMPTY, ORPHANED.(session := ORPHANED.session.(registered := true)), Unregister(0))
         == ORPHANED
  {
  }

  lemma OrphanRuns()
    ensures StepsOf(0, ORPHAN) && AgentExec(CANON, EMPTY, FRESH, ORPHAN) == ORPHANED
  {
    hide AgentExec, NextAgent;
    LateSession();
    OrphanSteps();
    AgentNothing(EMPTY, FRESH, ORPHAN);
    AgentStep(EMPTY, FRESH, ORPHAN, 0);
    AgentStep(EMPTY, FRESH, ORPHAN, 1);
    AgentStep(EMPTY, FRESH, ORPHAN, 2);
    AgentStep(EMPTY, FRESH, ORPHAN, 3);
    assert ORPHAN[..4] == ORPHAN;
  }

  /** The master does not notice its agents. */
  lemma {:induction false} MasterAlone(c: Cluster, steps: seq<Step>)
    requires MasterOnly(steps)
    ensures Exec(CANON, c, steps).master == MasterExec(CANON, c.master, steps)
  {
    if steps != [] {
      MasterAlone(c, steps[..|steps| - 1]);
      hide NextMaster, Reached;
    }
  }

  /** A connected agent whose registration was taken out stays behind from the first publish on. */
  lemma OrphanIsReached()
    ensures var c := Exec(CANON, One(EMPTY, FRESH), ORPHAN + PUBLISH);
            && 0 in c.agents && c.agents[0] == ORPHANED && Idle(ORPHANED) && Orphaned(ORPHANED)
            && CutOff(c.master, ORPHANED) && ORPHANED.cursor < |c.master.log|
            && c.master.inflight == [] && c.master.pending == []
  {
    hide Exec, MasterExec, AgentExec;
    OrphanRuns();
    AgentRuns(EMPTY, FRESH, ORPHAN);
    PublishRuns();
    ExecConcat(One(EMPTY, FRESH), ORPHAN, PUBLISH);
    MasterAlone(One(EMPTY, ORPHANED), PUBLISH);
    NoDisconnect();
    OrphanStaysStale(CANON, One(EMPTY, ORPHANED), 0, PUBLISH);
  }

  lemma NoDisconnect()
    ensures forall i :: 0 <= i < |PUBLISH| ==> PUBLISH[i] != Disconnect(0) && !PUBLISH[i].MasterRestart?
  {
  }

  // ---------------------------------------------------------------------------------------------
  // A torn log

  const OTHER := Pub(Key(LogDns, "o"), [3])

  /** One publish, from its beginning to its append. */
  function Publishing(p: Pub): seq<Step> {
    [Create(p), Write(0, 1), Append(0)]
  }

  /** n publishes of one pub, one after the other. */
  function Publishes(p: Pub, n: nat): seq<Step> {
    if n == 0 then [] else Publishes(p, n - 1) + Publishing(p)
  }

  function Copies(p: Pub, n: nat): seq<Pub> {
    seq(n, i requires 0 <= i < n => p)
  }

  /** Nothing is in flight, and nothing was torn. */
  ghost predicate Quiet(m: Master, log: seq<Pub>) {
    MasterBasic(CANON, m) && m.log == log && m.inflight == [] && m.torn == {}
  }

  ghost predicate OneByte(p: Pub) {
    Accepted(p) && |p.bin| == 1
  }

  /** Writing a publish that is alone in flight. */
  lemma WrittenAlone(m: Master, p: Pub)
    requires MasterBasic(CANON, m) && m.inflight == [] && OneByte(p)
    ensures var m2 := NextMaster(CANON, NextMaster(CANON, m, Create(p)), Write(0, 1));
            && MasterBasic(CANON, m2) && m2.log == m.log && m2.wal == m.wal && m2.torn == m.torn
            && m2.inflight == [Put(p, 1)]
  {
    hide MasterBasic, WriteAt, Written;
    var m1 := NextMaster(CANON, m, Create(p));
    MasterKeepsBasic(CANON, m, Create(p));
    MasterKeepsBasic(CANON, m1, Write(0, 1));
    assert m1.inflight == [Put(p, 0)];
    PutAt(CANON, m1, 0);
    WrittenIs(CANON, m1, 0, 1);
  }

  lemma PublishOne(m: Master, p: Pub)
    requires Quiet(m, m.log) && OneByte(p) && |m.log| + 1 < MAX_INDEX
    ensures Quiet(MasterExec(CANON, m, Publishing(p)), m.log + [p])
  {
    hide MasterBasic, MasterExec, NextMaster;
    WrittenAlone(m, p);
    var steps := Publishing(p);
    MasterNothing(m, steps);
    MasterNext(m, steps, 0);
    MasterNext(m, steps, 1);
    MasterNext(m, steps, 2);
    assert steps[..3] == steps;
    var m2 := MasterExec(CANON, m, steps[..2]);
    MasterKeepsBasic(CANON, m2, Append(0));
    AppendedAlone(m2, p);
  }

  lemma AppendedAlone(m: Master, p: Pub)
    requires m.inflight == [Put(p, 1)] && OneByte(p) && |m.log| + 1 < MAX_INDEX
    ensures var m' := NextMaster(CANON, m, Append(0));
            m'.log == m.log + [p] && m'.inflight == [] && m'.torn == m.torn
  {
    hide Appended;
  }

  lemma {:induction false} PublishMany(m: Master, p: Pub, n: nat)
    requires Quiet(m, m.log) && OneByte(p) && |m.log| + n < MAX_INDEX
    ensures Quiet(MasterExec(CANON, m, Publishes(p, n)), m.log + Copies(p, n))
  {
    hide Quiet, MasterExec, Publishes, OneByte;
    PublishesNext(m, p, n);
    if n == 0 {
      assert m.log + Copies(p, 0) == m.log;
    } else {
      PublishMany(m, p, n - 1);
      var before := MasterExec(CANON, m, Publishes(p, n - 1));
      LogIs(before, m.log + Copies(p, n - 1));
      PublishOne(before, p);
      MasterExecConcat(CANON, m, Publishes(p, n - 1), Publishing(p));
      assert m.log + Copies(p, n) == m.log + Copies(p, n - 1) + [p];
    }
  }

  lemma PublishesNext(m: Master, p: Pub, n: nat)
    ensures n == 0 ==> MasterExec(CANON, m, Publishes(p, n)) == m
    ensures n > 0 ==> Publishes(p, n) == Publishes(p, n - 1) + Publishing(p)
  {
    hide NextMaster;
  }

  lemma LogIs(m: Master, log: seq<Pub>)
    requires Quiet(m, log)
    ensures m.log == log
  {
  }

  /** With 1000 versions of which only the first has its key, a failed append of that key tears it. */
  lemma FirstIsTorn(m: Master)
    requires Quiet(m, [FIRST] + Copies(OTHER, 999))
    ensures var m' := MasterExec(CANON, m, [Create(FIRST), Write(0, 1), Fail(0, true)]);
            && MasterBasic(CANON, m') && m'.inflight == [] && m'.torn == {1} && LastRaw(m'.log, |m'.log|, 1)
  {
    hide MasterExec, MasterBasic, NextMaster;
    var steps := [Create(FIRST), Write(0, 1), Fail(0, true)];
    WrittenAlone(m, FIRST);
    MasterNothing(m, steps);
    MasterNext(m, steps, 0);
    MasterNext(m, steps, 1);
    MasterNext(m, steps, 2);
    assert steps[..3] == steps;
    var m2 := MasterExec(CANON, m, steps[..2]);
    MasterKeepsBasic(CANON, m2, Fail(0, true));
    FirstIsLast();
    TornAlone(m2);
  }

  lemma FirstIsLast()
    ensures var log := [FIRST] + Copies(OTHER, 999); |log| == 1000 && LastRaw(log, |log|, 1)
  {
    var log := [FIRST] + Copies(OTHER, 999);
    assert forall u :: 1 < u <= |log| ==> KeyAt(log, u) == OTHER.key;
  }

  lemma TornAlone(m: Master)
    requires MasterBasic(CANON, m) && m.inflight == [Put(FIRST, 1)] && m.torn == {}
    requires |m.log| == 1000 && m.log[0] == FIRST && LastRaw(m.log, |m.log|, 1)
    ensures var m' := NextMaster(CANON, m, Fail(0, true));
            m'.log == m.log && m'.inflight == [] && m'.torn == {1}
  {
    WalParts(CANON, m);
    hide MasterBasic, FindOnTop, Mark;
    var p := FindOnTop(m.wal, HOST);
    assert m.wal[0].status == OnTop && m.wal[0].key == KeyAt(m.log, 1) == HOST;
    assert Matches(m.wal[0], HOST);
    assert p >= 0;
    OnTopUnique(m.log, m.wal, m.torn, 0, p);
  }

  /** A failed append that tears the log: a thousand versions, then the first one's key again, whose
      segment can be written and the next one not. The first version is then the last of its key and
      missing from every backlog. */
  lemma TornIsReached()
    ensures var steps := Publishes(FIRST, 1) + Publishes(OTHER, 999) + [Create(FIRST), Write(0, 1), Fail(0, true)];
            var m := MasterExec(CANON, EMPTY, steps);
            && Exec(CANON, One(EMPTY, FRESH), steps) == One(m, FRESH)
            && m.inflight == [] && m.torn == {1} && LastRaw(m.log, |m.log|, 1) && !Holds(Backlog(CANON, m, 0), 1)
  {
    hide MasterExec, Publishes, Quiet, MasterBasic, Exec, Backlog, Holds, LastRaw, MasterOnly;
    var tear := [Create(FIRST), Write(0, 1), Fail(0, true)];
    EmptyIsQuiet();
    PublishMany(EMPTY, FIRST, 1);
    var one := MasterExec(CANON, EMPTY, Publishes(FIRST, 1));
    assert [] + Copies(FIRST, 1) == [FIRST];
    LogIs(one, [FIRST]);
    PublishMany(one, OTHER, 999);
    var two := MasterExec(CANON, one, Publishes(OTHER, 999));
    FirstIsTorn(two);
    MasterExecConcat(CANON, EMPTY, Publishes(FIRST, 1), Publishes(OTHER, 999));
    MasterExecConcat(CANON, EMPTY, Publishes(FIRST, 1) + Publishes(OTHER, 999), tear);
    MissingIffTorn(CANON, MasterExec(CANON, two, tear), 0, 1);
    AllByMaster(tear);
    MasterRuns(EMPTY, FRESH, Publishes(FIRST, 1) + Publishes(OTHER, 999) + tear);
  }

  lemma EmptyIsQuiet()
    ensures Quiet(EMPTY, []) && EMPTY.log == [] && OneByte(FIRST) && OneByte(OTHER)
  {
  }

  lemma AllByMaster(tear: seq<Step>)
    requires tear == [Create(FIRST), Write(0, 1), Fail(0, true)]
    ensures MasterOnly(Publishes(FIRST, 1) + Publishes(OTHER, 999) + tear)
  {
    PublishesByMaster(FIRST, 1);
    PublishesByMaster(OTHER, 999);
    hide Publishes;
  }

  lemma {:induction false} PublishesByMaster(p: Pub, n: nat)
    ensures MasterOnly(Publishes(p, n))
  {
    if n > 0 {
      PublishesByMaster(p, n - 1);
    }
  }
}
