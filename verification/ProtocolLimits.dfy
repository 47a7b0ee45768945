/** What the protocol does not promise: what overlapping publishes leave behind, and concrete runs that
    reach the cases set apart elsewhere. */
module ProtocolLimits {
  import opened Events
  import opened WalLog
  import opened Following
  import opened Protocol
  import opened ProtocolBasics
  import opened ProtocolAgreement
  import opened ProtocolConvergence
  import opened ProtocolShape
  import opened ProtocolSafety

  // ---------------------------------------------------------------------------------------------
  // Overlapping publishes

  /** Agents caught up with a master that stores other bytes of a path than its log says: one that had
      the newest version keeps it, one that had not takes what is stored, and both end at Latest. */
  ghost predicate Apart(canon: Canon, m: Master, path: StorePath) {
    && path in m.store && Newest(canon, m.log, path) > 0 && !NewestIs(canon, m.log, path, m.store[path])
    && forall agent :: Right(canon, m, agent) ==>
         var after := CaughtUp(canon, m, agent);
         && after.cursor == |m.log| && path in after.store
         && (if agent.cursor >= Newest(canon, m.log, path) then NewestIs(canon, m.log, path, after.store[path])
             else after.store[path] == m.store[path])
  }

  /** From every safe state: a publish that starts while another of its store path is in flight with
      other bytes can end with nothing in flight, and agents that reconnect apart for good. */
  lemma OverlappingPublishesDiverge(canon: Canon, m: Master, q: Pub, i: nat)
    requires MasterBasic(canon, m) && |m.log| + |m.inflight| + 1 < MAX_INDEX && Safe(canon, m)
    requires Accepted(q) && i < |m.inflight|
    requires canon(m.inflight[i].pub.key) == canon(q.key) && m.inflight[i].pub.bin != q.bin
    ensures exists steps :: var after := MasterExec(canon, NextMaster(canon, m, Create(q)), steps);
              Completing(steps) && after.inflight == [] && Apart(canon, after, canon(q.key))
  {
    hide MasterBasic, Safe, MasterExec, WriteAll, Completing, Newest, Apart;
    var path, m' := canon(q.key), NextMaster(canon, m, Create(q));
    var n := |m.inflight|;
    MasterKeepsBasic(canon, m, Create(q));
    assert m'.inflight[n] == Put(q, 0) && m'.inflight[i] == m.inflight[i];
    assert Busy(canon, m'.inflight, path) by { assert OnPath(canon, m'.inflight[n], path); }
    var steps := ConflictDiverges(canon, m', i, n, path);
    var after := MasterExec(canon, m', steps);
    LastWritten(canon, m');
    EndIsBasic(canon, m', steps);
    forall other | other != path ensures StoredRight(canon, after, other) {
      OthersEndRight(canon, m, q, steps, other);
    }
    NotTornAtEnd(canon, m', steps);
    assert after.store[path] != [];
    assert |after.log| !in after.torn;
    assert Newest(canon, after.log, path) > 0 by { NotEmptyLog(canon, m', steps, path); }
    DivergedIsApart(canon, after, path);
  }

  lemma OthersEndRight(canon: Canon, m: Master, q: Pub, steps: seq<Step>, other: StorePath)
    requires MasterBasic(canon, m) && |m.log| + |m.inflight| + 1 < MAX_INDEX && Safe(canon, m)
    requires other != canon(q.key) && Completing(steps)
    requires MasterExec(canon, NextMaster(canon, m, Create(q)), steps).inflight == []
    ensures StoredRight(canon, MasterExec(canon, NextMaster(canon, m, Create(q)), steps), other)
  {
    hide MasterBasic, Safe, MasterExec, Completing, Newest, Settles, NextMaster;
    var m' := NextMaster(canon, m, Create(q));
    SafeIff(canon, m);
    OtherPaths(canon, m, Create(q), other);
    MasterKeepsBasic(canon, m, Create(q));
    assert Settles(canon, m, other);
    SettledHasNoConflict(canon, m', other);
    CompletingIff(canon, m', steps, other);
    QuietSettles(canon, MasterExec(canon, m', steps), other);
  }

  /** A version appended by a completion is not torn. */
  lemma NotTornAtEnd(canon: Canon, m: Master, steps: seq<Step>)
    requires MasterBasic(canon, m) && Completing(steps) && m.inflight != []
    requires MasterExec(canon, m, steps).inflight == []
    ensures |MasterExec(canon, m, steps).log| !in MasterExec(canon, m, steps).torn
  {
    var path := canon(m.inflight[0].pub.key);
    CompletingBrings(canon, m, steps, path);
    TornInRange(canon, m);
    assert OnPath(canon, m.inflight[0], path) && m.inflight[0] in m.inflight;
    NoPuts(canon, path);
    hide MasterBasic, MasterExec, Newest;
  }

  lemma NotEmptyLog(canon: Canon, m: Master, steps: seq<Step>, path: StorePath)
    requires MasterBasic(canon, m) && Completing(steps) && Busy(canon, m.inflight, path)
    requires MasterExec(canon, m, steps).inflight == []
    ensures Newest(canon, MasterExec(canon, m, steps).log, path) > 0
  {
    CompletingBrings(canon, m, steps, path);
    NoPuts(canon, path);
    hide MasterBasic, MasterExec, Newest;
  }

  lemma DivergedIsApart(canon: Canon, m: Master, path: StorePath)
    requires MasterBasic(canon, m) && path in m.store && m.store[path] != [] && !StoredRight(canon, m, path)
    requires 0 < Newest(canon, m.log, path) == |m.log| && |m.log| !in m.torn
    requires forall other :: other != path ==> StoredRight(canon, m, other)
    ensures Apart(canon, m, path)
  {
    hide MasterBasic, CaughtUp, Newest, Touches, Backlog, Loadable, NewestIs;
    forall other | other in m.store && m.store[other] == [] ensures NewestIs(canon, m.log, other, m.store[other]) {
      assert StoredRight(canon, m, other);
    }
    forall agent | Right(canon, m, agent)
      ensures var after := CaughtUp(canon, m, agent);
              && after.cursor == |m.log| && path in after.store
              && (if agent.cursor >= Newest(canon, m.log, path) then NewestIs(canon, m.log, path, after.store[path])
                  else after.store[path] == m.store[path])
    {
      AllLoadable(canon, m, agent.cursor);
      CaughtUpCursor(canon, m, agent);
      CaughtUpAt(canon, m, agent, path);
      assert RightAt(canon, m, agent, path);
    }
  }

  lemma AllLoadable(canon: Canon, m: Master, from: nat)
    requires MasterBasic(canon, m) && from <= |m.log|
    requires forall path :: path in m.store && m.store[path] == [] ==> NewestIs(canon, m.log, path, m.store[path])
    ensures Loadable(canon, m, from)
  {
    BacklogKeeps(canon, m, from);
    Bounded(canon, m);
    var out := Backlog(canon, m, from);
    hide Backlog, StreamBasic, MasterBasic, Newest;
    forall i | 0 <= i < |out| ensures out[i].bin != [] {
      assert StoredNow(canon, m, out[i]);
    }
  }

  /** And such a state is reached at once: two publishes of one name, from the start. */
  lemma OverlapIsReached()
    ensures var m := Exec(CANON, Init({0}), [Create(FIRST)]).master;
            exists steps :: var after := MasterExec(CANON, NextMaster(CANON, m, Create(SECOND)), steps);
              Completing(steps) && after.inflight == [] && Apart(CANON, after, "h")
  {
    hide MasterExec, Apart, MasterBasic, Safe, Completing, SerialRun;
    var c := Exec(CANON, Init({0}), [Create(FIRST)]);
    OnePublish();
    EveryRunIsBasic(CANON, {0}, [Create(FIRST)]);
    BasicParts(CANON, c);
    SerialRunsAreSafe(CANON, {0}, [Create(FIRST)]);
    OverlappingPublishesDiverge(CANON, c.master, SECOND, 0);
  }

  lemma OnePublish()
    ensures AllSerial(CANON, Init({0}), [Create(FIRST)])
    ensures Exec(CANON, Init({0}), [Create(FIRST)]).master == Master([], [], {}, map["h" := []], [Put(FIRST, 0)], [])
  {
    assert [Create(FIRST)][..0] == [];
    assert Exec(CANON, Init({0}), []) == Init({0});
    assert [] + [Put(FIRST, 0)] == [Put(FIRST, 0)];
    forall path ensures SerialRun(CANON, Init({0}), [Create(FIRST)], path) {
      assert SerialRun(CANON, Init({0}), [], path);
    }
  }

  // ---------------------------------------------------------------------------------------------
  // Runs

  const CANON: Canon := (k: Key) => k.host
  const HOST := Key(LogDns, "h")
  const FIRST := Pub(HOST, [1])
  const SECOND := Pub(HOST, [2])

  function One(m: Master, agent: Agent): Cluster {
    Cluster(m, map[0 := agent])
  }

  lemma OneNext(m: Master, agent: Agent, step: Step)
    requires OfAgent(step) ==> step.a == 0
    ensures Next(CANON, One(m, agent), step)
         == if OfAgent(step) then One(m, NextAgent(CANON, m, agent, step))
            else One(NextMaster(CANON, m, step), Reached(m, agent, step))
  {
    hide NextAgent, NextMaster, Reached;
  }

  lemma ExecNext(c: Cluster, steps: seq<Step>, k: nat)
    requires k < |steps|
    ensures Exec(CANON, c, steps[..k + 1]) == Next(CANON, Exec(CANON, c, steps[..k]), steps[k])
  {
    hide Next;
    assert steps[..k + 1][..k] == steps[..k];
  }

  const FRESH := Agent(map[], 0, Down, {})

  /** A publish between the reading of a backlog and its registration. */
  const LATE: seq<Step> :=
    [Subscribe(0), Snapshot(0), Create(SECOND), Write(0, 1), Append(0), Broadcast(0), Register(0)]

  const ITEM := Item(1, HOST, 0, OnTop)
  const AFTER_LATE := Master([SECOND], [ITEM], {}, map["h" := [2]], [], [])

  /** Registered after one broadcast, with nothing in the stream. */
  const LATE_SESSION := Streaming(0, {}, [], [], SUBSCRIBER_BUFFER, true, true, true, None, 1, 0)

  lemma FirstPublish(p: Pub)
    requires p == SECOND
    ensures NextMaster(CANON, EMPTY, Create(p)) == Master([], [], {}, map["h" := []], [Put(p, 0)], [])
    ensures NextMaster(CANON, Master([], [], {}, map["h" := []], [Put(p, 0)], []), Write(0, 1))
         == Master([], [], {}, map["h" := [2]], [Put(p, 1)], [])
    ensures NextMaster(CANON, Master([], [], {}, map["h" := [2]], [Put(p, 1)], []), Append(0))
         == Master([p], [ITEM], {}, map["h" := [2]], [], [1])
    ensures NextMaster(CANON, Master([p], [ITEM], {}, map["h" := [2]], [], [1]), Broadcast(0)) == AFTER_LATE
  {
    assert [2][..1] == [2] && [2][0..] == [2];
    assert WriteAt([], 0, [2]) == [2];
    assert map["h" := []]["h" := [2]] == map["h" := [2]];
    assert Appended([], 1, HOST) == [ITEM];
    assert [] + [Put(p, 0)] == [Put(p, 0)] && [Put(p, 0)][0 := Put(p, 1)] == [Put(p, 1)];
    assert Without([Put(p, 1)], 0) == [] && Without([1], 0) == [];
  }

  lemma LateSession()
    ensures NextAgent(CANON, EMPTY, FRESH, Subscribe(0)) == FRESH.(session := Requested)
    ensures NextAgent(CANON, EMPTY, FRESH.(session := Requested), Snapshot(0))
         == FRESH.(session := Reading(0, {}, [], []))
    ensures NextAgent(CANON, AFTER_LATE, FRESH.(session := Reading(0, {}, [], [])), Register(0))
         == FRESH.(session := LATE_SESSION)
  {
  }

  lemma LateBegins()
    ensures Exec(CANON, One(EMPTY, FRESH), LATE[..2]) == One(EMPTY, FRESH.(session := Reading(0, {}, [], [])))
  {
    hide Exec, NextAgent, NextMaster, Next;
    ExecNext(One(EMPTY, FRESH), LATE, 0);
    ExecNothing(One(EMPTY, FRESH), LATE);
    ExecNext(One(EMPTY, FRESH), LATE, 1);
    LateSession();
    OneNext(EMPTY, FRESH, Subscribe(0));
    OneNext(EMPTY, FRESH.(session := Requested), Snapshot(0));
  }

  lemma ExecNothing(c: Cluster, steps: seq<Step>)
    ensures Exec(CANON, c, steps[..0]) == c
  {
  }

  lemma NotReached(m: Master, agent: Agent, step: Step)
    requires !OfAgent(step) && !step.MasterRestart? && !agent.session.Streaming?
    ensures Reached(m, agent, step) == agent
  {
  }

  lemma LatePublishes()
    ensures Exec(CANON, One(EMPTY, FRESH), LATE[..6]) == One(AFTER_LATE, FRESH.(session := Reading(0, {}, [], [])))
  {
    hide Exec, NextAgent, NextMaster, Next, Reached;
    var c, agent := One(EMPTY, FRESH), FRESH.(session := Reading(0, {}, [], []));
    LateBegins();
    FirstPublish(SECOND);
    var m1 := Master([], [], {}, map["h" := []], [Put(SECOND, 0)], []);
    var m2 := Master([], [], {}, map["h" := [2]], [Put(SECOND, 1)], []);
    var m3 := Master([SECOND], [ITEM], {}, map["h" := [2]], [], [1]);
    ExecNext(c, LATE, 2);
    OneNext(EMPTY, agent, Create(SECOND));
    NotReached(EMPTY, agent, Create(SECOND));
    ExecNext(c, LATE, 3);
    OneNext(m1, agent, Write(0, 1));
    NotReached(m1, agent, Write(0, 1));
    ExecNext(c, LATE, 4);
    OneNext(m2, agent, Append(0));
    NotReached(m2, agent, Append(0));
    ExecNext(c, LATE, 5);
    OneNext(m3, agent, Broadcast(0));
    NotReached(m3, agent, Broadcast(0));
  }

  /** A live agent can miss a version until something else is published or it reconnects: here version
      1 is broadcast, the agent is idle, having joined late, and its cursor is 0. */
  lemma LateRegistrationMisses()
    ensures var c := Exec(CANON, One(EMPTY, FRESH), LATE);
            && c == One(AFTER_LATE, FRESH.(session := LATE_SESSION))
            && Idle(c.agents[0]) && JoinedLate(c.agents[0]) && c.agents[0].cursor < |c.master.log|
  {
    hide Exec, NextAgent, NextMaster, Next;
    LatePublishes();
    LateSession();
    ExecNext(One(EMPTY, FRESH), LATE, 6);
    OneNext(AFTER_LATE, FRESH.(session := Reading(0, {}, [], [])), Register(0));
    assert LATE[..7] == LATE;
  }

  const NEXT_PUBLISH: seq<Step> := [Create(FIRST), Write(0, 1), Append(0), Broadcast(0), Send(0), Receive(0)]

  lemma {:induction false} ExecConcat(c: Cluster, s: seq<Step>, t: seq<Step>)
    ensures Exec(CANON, c, s + t) == Exec(CANON, Exec(CANON, c, s), t)
  {
    hide Next;
    if t == [] {
      assert s + t == s;
    } else {
      assert (s + t)[..|s + t| - 1] == s + t[..|t| - 1];
      ExecConcat(c, s, t[..|t| - 1]);
    }
  }

  /** The next publish then leaves a gap: with ordered broadcasts and disciplined publishes a session's
      first NORMAL message can fail, so the exception made for it is needed. */
  lemma GapAtFirstNormal()
    ensures var c := Exec(CANON, One(EMPTY, FRESH), LATE + NEXT_PUBLISH);
            0 in c.agents && c.agents[0].failures == {VersionGap}
  {
    hide Exec;
    LateRegistrationMisses();
    ExecConcat(One(EMPTY, FRESH), LATE, NEXT_PUBLISH);
    GapAfterLate();
  }

  lemma GapAfterLate()
    ensures var c := Exec(CANON, One(AFTER_LATE, FRESH.(session := LATE_SESSION)), NEXT_PUBLISH);
            0 in c.agents && c.agents[0].failures == {VersionGap}
  {
    hide Exec, NextAgent, NextMaster, Next, Reached;
    var steps := NEXT_PUBLISH;
    var agent := FRESH.(session := LATE_SESSION);
    var c := One(AFTER_LATE, agent);
    SecondPublish();
    GapMessage();
    ExecNothing(c, steps);
    ExecNext(c, steps, 0);
    OneNext(AFTER_LATE, agent, Create(FIRST));
    OnlyBroadcastsReach(AFTER_LATE, agent, Create(FIRST));
    ExecNext(c, steps, 1);
    OneNext(NEXT_ONE, agent, Write(0, 1));
    OnlyBroadcastsReach(NEXT_ONE, agent, Write(0, 1));
    ExecNext(c, steps, 2);
    OneNext(NEXT_TWO, agent, Append(0));
    OnlyBroadcastsReach(NEXT_TWO, agent, Append(0));
    ExecNext(c, steps, 3);
    OneNext(NEXT_THREE, agent, Broadcast(0));
    var heard := Reached(NEXT_THREE, agent, Broadcast(0));
    var quiet := NextMaster(CANON, NEXT_THREE, Broadcast(0));
    ExecNext(c, steps, 4);
    OneNext(quiet, heard, Send(0));
    ExecNext(c, steps, 5);
    OneNext(quiet, NextAgent(CANON, quiet, heard, Send(0)), Receive(0));
    assert steps[..6] == steps;
  }

  const NEXT_ONE := Master([SECOND], [ITEM], {}, map["h" := []], [Put(FIRST, 0)], [])
  const NEXT_TWO := Master([SECOND], [ITEM], {}, map["h" := [1]], [Put(FIRST, 1)], [])
  const NEXT_THREE := Master([SECOND, FIRST], Appended([ITEM], 2, HOST), {}, map["h" := [1]], [], [2])

  lemma OnlyBroadcastsReach(m: Master, agent: Agent, step: Step)
    requires step.Create? || step.Write? || step.Append?
    ensures Reached(m, agent, step) == agent
  {
  }

  lemma SecondPublish()
    ensures NextMaster(CANON, AFTER_LATE, Create(FIRST)) == NEXT_ONE
    ensures NextMaster(CANON, NEXT_ONE, Write(0, 1)) == NEXT_TWO
    ensures NextMaster(CANON, NEXT_TWO, Append(0)) == NEXT_THREE
  {
    hide Appended;
    assert [1][..1] == [1] && [1][0..] == [1];
    assert WriteAt([], 0, [1]) == [1];
    assert map["h" := [2]]["h" := []] == map["h" := []] && map["h" := []]["h" := [1]] == map["h" := [1]];
    assert [] + [Put(FIRST, 0)] == [Put(FIRST, 0)] && [Put(FIRST, 0)][0 := Put(FIRST, 1)] == [Put(FIRST, 1)];
    assert Without([Put(FIRST, 1)], 0) == [] && [SECOND] + [FIRST] == [SECOND, FIRST];
  }

  lemma GapMessage()
    ensures var heard := Reached(NEXT_THREE, FRESH.(session := LATE_SESSION), Broadcast(0));
            var quiet := NextMaster(CANON, NEXT_THREE, Broadcast(0));
            var sent := NextAgent(CANON, quiet, heard, Send(0));
            NextAgent(CANON, quiet, sent, Receive(0)).failures == {VersionGap}
  {
    hide Appended;
    var msg := NormalOf([SECOND, FIRST], 2);
    var heard := Reached(NEXT_THREE, FRESH.(session := LATE_SESSION), Broadcast(0));
    assert heard.session.queue == [msg] && heard.session.wire == [];
    assert Decide(0, true, msg) == Stop(VersionGap);
  }
}
