/** The shape of a stream when versions are broadcast in the order they were appended. */
module ProtocolShape {
  import opened Events
  import opened WalLog
  import opened ChangeStores
  import opened Following
  import opened Protocol
  import opened ProtocolBasics
  import opened ProtocolAgreement
  import opened ProtocolConvergence
  import opened ProtocolOrigin

  /** The discipline: of the versions appended and not broadcast yet, the oldest goes first. */
  ghost predicate Ordered(step: Step) {
    step.Broadcast? ==> step.i == 0
  }

  ghost predicate OrderedRun(steps: seq<Step>) {
    forall i :: 0 <= i < |steps| ==> Ordered(steps[i])
  }

  /** The versions not broadcast yet are the last ones of the log. */
  ghost predicate PendingShape(m: Master) {
    && |m.pending| <= |m.log|
    && forall i :: 0 <= i < |m.pending| ==> m.pending[i] == Broadcasts(m) + 1 + i
  }

  /** The version the next NORMAL message after these must have, `base` being the first's. */
  function NextNormal(all: seq<Envelope>, base: nat): nat {
    if all == [] || all[|all| - 1].tier.Recover? then base else all[|all| - 1].version + 1
  }

  /** NORMAL versions follow each other without a hole. */
  ghost predicate Contiguous(all: seq<Envelope>, base: nat) {
    forall i :: 0 <= i < |all| && all[i].tier.Normal? ==> all[i].version == NextNormal(all[..i], base)
  }

  /** The NORMAL messages of a session are the broadcasts from its registration on, one after the
      other: those received, those in the stream and, while it stays registered, all so far. The
      cursor is not past both the snapshot and what was received. */
  ghost predicate SessionShape(m: Master, agent: Agent) {
    agent.session.Streaming? ==>
      var s := agent.session;
      var all, heard := s.wire + s.queue, s.joined + s.received;
      && Contiguous(all, heard + 1)
      && NextNormal(all, heard + 1) <= Broadcasts(m) + 1
      && (s.registered ==> s.open && NextNormal(all, heard + 1) == Broadcasts(m) + 1)
      && (s.received > 0 ==> heard <= Current(agent))
      && (Current(agent) <= s.snap || Current(agent) <= heard)
  }

  ghost predicate Shaped(canon: Canon, c: Cluster) {
    && Basic(canon, c)
    && PendingShape(c.master)
    && forall a :: a in c.agents ==> SessionShape(c.master, c.agents[a])
  }

  lemma MasterKeepsPending(canon: Canon, m: Master, step: Step)
    requires MasterBasic(canon, m) && PendingShape(m) && !OfAgent(step) && Ordered(step)
    ensures PendingShape(NextMaster(canon, m, step))
    ensures !step.Broadcast? && !step.MasterRestart? ==> Broadcasts(NextMaster(canon, m, step)) == Broadcasts(m)
    ensures step.Broadcast? && m.pending != [] ==>
              m.pending[0] == Broadcasts(m) + 1 && Broadcasts(NextMaster(canon, m, step)) == Broadcasts(m) + 1
    ensures step.Broadcast? && m.pending == [] ==> NextMaster(canon, m, step) == m
  {
    hide WalFits, FindOnTop, Appended, Mark, WriteAt, PutBasic;
  }

  lemma ContiguousMore(all: seq<Envelope>, base: nat, e: Envelope)
    requires Contiguous(all, base) && e.tier.Normal? && e.version == NextNormal(all, base)
    ensures Contiguous(all + [e], base) && NextNormal(all + [e], base) == e.version + 1
  {
    var longer := all + [e];
    forall i | 0 <= i < |longer| && longer[i].tier.Normal?
      ensures longer[i].version == NextNormal(longer[..i], base)
    {
      if i < |all| {
        assert longer[..i] == all[..i];
      } else {
        assert longer[..i] == all;
      }
    }
  }

  lemma ContiguousTail(all: seq<Envelope>, base: nat)
    requires Contiguous(all, base) && all != [] && RecoverFirst(all)
    requires forall i :: 0 <= i < |all| ==> !all[i].tier.OtherTier?
    ensures var base' := if all[0].tier.Recover? then base else base + 1;
            && Contiguous(all[1..], base')
            && NextNormal(all[1..], base') == NextNormal(all, base)
            && (all[0].tier.Normal? ==> all[0].version == base)
  {
    var rest, base' := all[1..], if all[0].tier.Recover? then base else base + 1;
    assert all[..0] == [];
    assert all[0].tier.Normal? ==> all[0].version == base;
    NextNormalTail(all, base);
    forall i | 0 <= i < |rest| && rest[i].tier.Normal?
      ensures rest[i].version == NextNormal(rest[..i], base')
    {
      assert rest[i] == all[i + 1];
      assert all[..i + 1][1..] == rest[..i] && all[..i + 1][0] == all[0];
      NextNormalTail(all[..i + 1], base);
    }
  }

  lemma NextNormalTail(all: seq<Envelope>, base: nat)
    requires all != [] && RecoverFirst(all) && !all[0].tier.OtherTier?
    requires all[0].tier.Normal? ==> all[0].version == base
    ensures NextNormal(all[1..], if all[0].tier.Recover? then base else base + 1) == NextNormal(all, base)
  {
    var rest := all[1..];
    if rest != [] {
      assert rest[|rest| - 1] == all[|all| - 1];
    }
  }

  lemma OfferKeepsShape(m: Master, m': Master, agent: Agent, msg: Envelope)
    requires SessionShape(m, agent) && msg.tier.Normal? && msg.version == Broadcasts(m) + 1 == Broadcasts(m')
    ensures SessionShape(m', agent.(session := Offered(agent.session, msg)))
  {
    hide Contiguous, NextNormal, Broadcasts;
    var s := agent.session;
    if s.Streaming? && s.registered {
      ContiguousMore(s.wire + s.queue, s.joined + s.received + 1, msg);
      assert s.wire + (s.queue + [msg]) == s.wire + s.queue + [msg];
    }
  }

  lemma SameBroadcasts(m: Master, m': Master, agent: Agent)
    requires SessionShape(m, agent) && Broadcasts(m') == Broadcasts(m)
    ensures SessionShape(m', agent)
  {
    hide Contiguous, NextNormal, Broadcasts;
  }

  lemma ReachedKeepsShape(canon: Canon, m: Master, agent: Agent, step: Step)
    requires MasterBasic(canon, m) && PendingShape(m) && SessionShape(m, agent) && !OfAgent(step) && Ordered(step)
    ensures SessionShape(NextMaster(canon, m, step), Reached(m, agent, step))
  {
    MasterKeepsPending(canon, m, step);
    FirstPending(canon, m);
    hide NextMaster, Contiguous, NextNormal, PendingShape, MasterBasic, Broadcasts, SessionShape, Offered;
    if step.Broadcast? && m.pending != [] {
      OfferKeepsShape(m, NextMaster(canon, m, step), agent, NormalOf(m.log, m.pending[0]));
    } else if step.MasterRestart? {
      DownHasShape(NextMaster(canon, m, step), agent.(session := Down));
    } else {
      SameBroadcasts(m, NextMaster(canon, m, step), agent);
    }
  }

  lemma DownHasShape(m: Master, agent: Agent)
    requires !agent.session.Streaming?
    ensures SessionShape(m, agent)
  {
  }

  lemma FirstPending(canon: Canon, m: Master)
    requires MasterBasic(canon, m)
    ensures m.pending != [] ==> 0 < m.pending[0] <= |m.log|
  {
  }

  /** A message leaves a gap exactly when it is the first NORMAL message of a session that was
      registered with broadcasts past the cursor already out. */
  lemma NoGapLater(m: Master, agent: Agent)
    requires AgentBasic(m.log, m.torn, agent) && |m.log| < MAX_INDEX && SessionShape(m, agent)
    requires agent.session.Streaming? && agent.session.wire != [] && agent.session.saving.None?
    ensures Decide(agent.cursor, agent.session.recovering, agent.session.wire[0]) == Stop(VersionGap) <==>
              && agent.session.wire[0].tier.Normal?
              && agent.session.received == 0 && agent.session.joined > agent.cursor
  {
    var s := agent.session;
    var all := s.wire + s.queue;
    assert all[0] == s.wire[0] && all[..0] == [];
    HeadMessage(m.log, s.snap, s.lost, agent.cursor, all);
    hide StreamBasic, NoRecover;
  }

  lemma HeadMessage(log: seq<Pub>, snap: nat, lost: set<nat>, from: nat, all: seq<Envelope>)
    requires StreamBasic(log, snap, lost, from, all) && all != []
    ensures MessageBasic(log, snap, all[0])
  {
  }

  lemma ReceivedKeepsShape(canon: Canon, m: Master, agent: Agent)
    requires AgentBasic(m.log, m.torn, agent) && |m.log| < MAX_INDEX && SessionShape(m, agent)
    requires agent.session.Streaming? && agent.session.wire != [] && agent.session.saving.None?
    ensures SessionShape(m, Received(canon, agent))
  {
    hide AgentBasic, Contiguous, NextNormal, ApplyError, Broadcasts, RecoverFirst, Decide, KeyOf;
    var s := agent.session;
    var all := s.wire + s.queue;
    assert all[0] == s.wire[0] && all[1..] == s.wire[1..] + s.queue;
    StreamParts(m, agent);
    RecoverBound(m, agent);
    DecideMoves(agent.cursor, s.recovering, s.wire[0]);
    ContiguousTail(all, s.joined + s.received + 1);
    assert !s.wire[0].tier.Recover? ==> s.wire[0].version == s.joined + s.received + 1;
  }

  lemma RecoverBound(m: Master, agent: Agent)
    requires AgentBasic(m.log, m.torn, agent) && agent.session.Streaming? && agent.session.wire != []
    ensures agent.session.wire[0].tier.Recover? ==> agent.session.wire[0].version <= agent.session.snap
  {
    var s := agent.session;
    assert (s.wire + s.queue)[0] == s.wire[0];
    HeadMessage(m.log, s.snap, s.lost, Current(agent), s.wire + s.queue);
    hide StreamBasic, NoRecover;
  }

  /** A message that does not stop the session leaves `current` no lower, and at least at the
      message's version if it is a NORMAL one. */
  lemma DecideMoves(current: nat, recovering: bool, change: Envelope)
    requires current < MAX_INDEX
    ensures Decide(current, recovering, change).Skip? && !change.tier.Recover? ==> change.version <= current
    ensures Decide(current, recovering, change).Apply? ==> change.version > current
  {
  }

  lemma StreamParts(m: Master, agent: Agent)
    requires AgentBasic(m.log, m.torn, agent) && agent.session.Streaming?
    ensures var all := agent.session.wire + agent.session.queue;
            RecoverFirst(all) && (forall i :: 0 <= i < |all| ==> !all[i].tier.OtherTier?) && agent.cursor <= |m.log|
  {
    KnownTiers(m.log, agent.session.snap, agent.session.lost, Current(agent), agent.session.wire + agent.session.queue);
    hide StreamBasic, NoRecover;
  }

  lemma KnownTiers(log: seq<Pub>, snap: nat, lost: set<nat>, from: nat, all: seq<Envelope>)
    requires StreamBasic(log, snap, lost, from, all)
    ensures RecoverFirst(all) && forall i :: 0 <= i < |all| ==> !all[i].tier.OtherTier?
  {
    forall i | 0 <= i < |all| ensures !all[i].tier.OtherTier? {
      assert MessageBasic(log, snap, all[i]);
    }
  }

  lemma AgentStepKeepsShape(canon: Canon, m: Master, agent: Agent, step: Step)
    requires MasterBasic(canon, m) && PendingShape(m) && AgentBasic(m.log, m.torn, agent) && SessionShape(m, agent)
              && OfAgent(step)
    ensures SessionShape(m, NextAgent(canon, m, agent, step))
  {
    hide Received, Contiguous, NextNormal, Entry, StreamBasic, ReadBasic, NoRecover, PendingShape, MasterBasic;
    hide Broadcasts, AllRecover, Decide, ApplyError;
    var s := agent.session;
    match step
    case Register(_) =>
      if s.Reading? && s.left == [] {
        assert [] + s.backlog == s.backlog;
        ReadToTheEnd(m.log, s.snap, s.lost, agent.cursor, s.backlog);
        ReadFrom(m.log, s.snap, s.lost, agent.cursor, s.left, s.backlog);
        RegisteredShape(s.backlog, Broadcasts(m) + 1);
      }
    case Send(_) =>
      if s.Streaming? && s.queue != [] {
        assert (s.wire + [s.queue[0]]) + s.queue[1..] == s.wire + s.queue;
      }
    case Receive(_) =>
      if s.Streaming? && s.wire != [] && s.saving.None? {
        Capped(canon, m);
        ReceivedKeepsShape(canon, m, agent);
      }
    case _ =>
  }

  lemma Capped(canon: Canon, m: Master)
    requires MasterBasic(canon, m)
    ensures |m.log| < MAX_INDEX
  {
  }

  lemma RegisteredShape(backlog: seq<Envelope>, base: nat)
    requires AllRecover(backlog)
    ensures Contiguous(backlog, base) && NextNormal(backlog, base) == base
  {
  }

  lemma StepKeepsShape(canon: Canon, c: Cluster, step: Step)
    requires Shaped(canon, c) && Ordered(step)
    ensures Shaped(canon, Next(canon, c, step))
  {
    StepKeepsBasic(canon, c, step);
    hide SessionShape, PendingShape, MasterBasic, AgentBasic, NextAgent, NextMaster, Reached;
    if OfAgent(step) {
      if step.a in c.agents {
        AgentStepKeepsShape(canon, c.master, c.agents[step.a], step);
      }
    } else {
      MasterKeepsPending(canon, c.master, step);
      forall a | a in c.agents
        ensures SessionShape(NextMaster(canon, c.master, step), Reached(c.master, c.agents[a], step))
      {
        ReachedKeepsShape(canon, c.master, c.agents[a], step);
      }
    }
  }

  /** With ordered broadcasts every stream is the ascending RECOVER backlog followed by a contiguous
      run of broadcasts from its registration, whatever else happens: a full channel or a lost
      registration ends the run and never leaves a hole. */
  lemma {:induction false} OrderedRunsAreShaped(canon: Canon, ids: set<AgentId>, steps: seq<Step>)
    requires OrderedRun(steps)
    ensures Shaped(canon, Exec(canon, Init(ids), steps))
  {
    if steps == [] {
      EveryRunIsBasic(canon, ids, []);
    } else {
      var front := steps[..|steps| - 1];
      assert forall i :: 0 <= i < |front| ==> front[i] == steps[i];
      OrderedRunsAreShaped(canon, ids, front);
      hide Shaped, Next, Ordered;
      StepKeepsShape(canon, Exec(canon, Init(ids), front), steps[|steps| - 1]);
    }
  }

  /** Main result on errors: in no run at all does a session fail because of a version ahead of the
      master, a RECOVER after a NORMAL or an empty version. A change cannot be applied exactly when it
      is a RECOVER message that was read while its object was empty; and with ordered
      broadcasts the next message leaves a version gap exactly when it is a session's first NORMAL
      message and broadcasts past the cursor went out before the registration. */
  lemma OnlyFirstNormalLeavesGap(canon: Canon, ids: set<AgentId>, steps: seq<Step>, a: AgentId)
    requires a in Exec(canon, Init(ids), steps).agents
    ensures Exec(canon, Init(ids), steps).agents[a].failures <= {VersionGap, NotApplied(BinRequired)}
    ensures var agent := Exec(canon, Init(ids), steps).agents[a];
            agent.session.Streaming? && agent.session.wire != [] ==>
              (ApplyError(agent.session.wire[0]).Some? <==>
                 agent.session.wire[0].tier.Recover? && agent.session.wire[0].bin == [])
    ensures var agent := Exec(canon, Init(ids), steps).agents[a];
            agent.session.Streaming? && agent.session.wire != [] ==>
              var e := agent.session.wire[0];
              (ApplyError(e).Some? <==>
                 exists k: nat :: ReadAt(canon, Init(ids), steps, a, e, k)
                                  && Stored(Exec(canon, Init(ids), steps[..k]).master, canon(KeyOf(e))) == [])
    ensures var agent := Exec(canon, Init(ids), steps).agents[a];
            OrderedRun(steps) && agent.session.Streaming? && agent.session.wire != [] && agent.session.saving.None? ==>
              (Decide(agent.cursor, agent.session.recovering, agent.session.wire[0]) == Stop(VersionGap) <==>
                 && agent.session.wire[0].tier.Normal?
                 && agent.session.received == 0 && agent.session.joined > agent.cursor)
  {
    var c := Exec(canon, Init(ids), steps);
    var m, agent := c.master, c.agents[a];
    EveryRunIsBasic(canon, ids, steps);
    BasicParts(canon, c);
    Capped(canon, m);
    hide Exec, Init, Decide, StreamBasic, ReadBasic, NoRecover, ApplyError, SessionShape, OrderedRun, MasterBasic;
    hide ReadAt, Stored, KeyOf;
    if agent.session.Streaming? && agent.session.wire != [] {
      var s := agent.session;
      UnappliableIffReadEmpty(canon, ids, steps, a);
      assert (s.wire + s.queue)[0] == s.wire[0];
      HeadOutcome(m.log, s.snap, s.lost, Current(agent), s.recovering, s.wire + s.queue);
      if OrderedRun(steps) && s.saving.None? {
        OrderedRunsAreShaped(canon, ids, steps);
        ShapeOf(canon, c, a);
        NoGapLater(m, agent);
      }
    }
  }

  lemma ShapeOf(canon: Canon, c: Cluster, a: AgentId)
    requires Shaped(canon, c) && a in c.agents
    ensures SessionShape(c.master, c.agents[a]) && PendingShape(c.master)
  {
  }

  // ---------------------------------------------------------------------------------------------
  // Connected agents that received everything

  /** A connected agent with an empty stream and nothing to save. */
  predicate Idle(agent: Agent) {
    var s := agent.session;
    s.Streaming? && s.wire + s.queue == [] && s.saving.None?
  }

  /** Its channel was full at a broadcast, and closed. */
  predicate Evicted(agent: Agent) {
    agent.session.Streaming? && !agent.session.open
  }

  /** Its channel is open, and no broadcast reaches it: another handler took its registration out. */
  predicate Orphaned(agent: Agent) {
    agent.session.Streaming? && agent.session.open && !agent.session.registered
  }

  /** What a session can know at its registration: broadcasts past its snapshot are out. */
  predicate JoinedLate(agent: Agent) {
    agent.session.Streaming? && agent.session.received == 0 && agent.session.joined > agent.session.snap
  }

  /** Since it lost its registration a version went out that its snapshot does not have. */
  predicate CutOff(m: Master, agent: Agent) {
    var s := agent.session;
    (Evicted(agent) || Orphaned(agent)) && Broadcasts(m) > s.snap && Broadcasts(m) > s.joined + s.received
  }

  /** A connected agent that received everything is behind the broadcasts exactly when it was registered
      with broadcasts past its cursor out and received no NORMAL message yet, or is not registered
      any more and a later broadcast went out. Unless the snapshot's last version was torn, that
      is told by the snapshot alone: it joined late or is cut off. */
  lemma LiveBehindIff(m: Master, agent: Agent)
    requires AgentBasic(m.log, m.torn, agent) && SessionShape(m, agent) && Idle(agent)
    ensures var s := agent.session;
            agent.cursor < Broadcasts(m) <==>
              || (s.received == 0 && s.joined > agent.cursor)
              || (!s.registered && Broadcasts(m) > s.joined + s.received && Broadcasts(m) > agent.cursor)
    ensures agent.session.snap !in agent.session.lost ==>
              && agent.session.snap <= agent.cursor
              && (agent.cursor < Broadcasts(m) <==> JoinedLate(agent) || CutOff(m, agent))
  {
    hide StreamBasic, Broadcasts;
    if agent.session.snap !in agent.session.lost {
      DrainedCursor(m.log, m.torn, agent);
    }
  }

  /** In a disciplined run with ordered broadcasts, when nothing is in flight or waiting, a connected
      agent that received everything is level with the master exactly when it neither joined late
      nor is cut off. */
  lemma LiveLevelIff(canon: Canon, ids: set<AgentId>, steps: seq<Step>, a: AgentId)
    requires AllSerial(canon, Init(ids), steps) && OrderedRun(steps)
    requires var c := Exec(canon, Init(ids), steps);
             && a in c.agents && c.master.inflight == [] && c.master.pending == []
             && Idle(c.agents[a])
    ensures var c := Exec(canon, Init(ids), steps);
            var agent := c.agents[a];
            var s := agent.session;
            && (Level(c.master, agent) <==>
                  && !(s.received == 0 && s.joined > agent.cursor)
                  && (s.registered || |c.master.log| <= s.joined + s.received || |c.master.log| <= agent.cursor))
            && (s.snap !in s.lost ==> (Level(c.master, agent) <==> !JoinedLate(agent) && !CutOff(c.master, agent)))
  {
    hide *;
    var c := Exec(canon, Init(ids), steps);
    AllSerialAgree(canon, ids, steps);
    OrderedRunsAreShaped(canon, ids, steps);
    EveryRunIsBasic(canon, ids, steps);
    BasicParts(canon, c);
    ShapeOf(canon, c, a);
    LiveBehindIff(c.master, c.agents[a]);
    CursorBound(c.master, c.agents[a]);
    AllBroadcast(c.master);
    LevelIff(canon, c, a);
  }

  lemma AllBroadcast(m: Master)
    requires m.pending == []
    ensures Broadcasts(m) == |m.log|
  {
  }

  lemma LevelIff(canon: Canon, c: Cluster, a: AgentId)
    requires AllAgree(canon, c) && a in c.agents && c.master.inflight == []
    ensures Level(c.master, c.agents[a]) <==> c.agents[a].cursor == |c.master.log|
  {
    hide AllAgree;
    if c.agents[a].cursor == |c.master.log| {
      LevelAtLatest(canon, c, a);
    }
  }

  /** An evicted agent that received everything finds the end of its stream at its next receive, and is
      free to subscribe again. */
  lemma EvictedLeaves(canon: Canon, m: Master, agent: Agent, a: AgentId)
    requires Idle(agent) && Evicted(agent)
    ensures NextAgent(canon, m, agent, Receive(a)) == agent.(session := Down)
  {
  }

  /** An orphaned agent that received everything stays as it is, however much is published and whatever
      steps it takes, until it disconnects by itself or the master restarts. */
  lemma {:induction false} OrphanStaysStale(canon: Canon, c: Cluster, a: AgentId, steps: seq<Step>)
    requires a in c.agents && Idle(c.agents[a]) && Orphaned(c.agents[a])
    requires forall i :: 0 <= i < |steps| ==> steps[i] != Disconnect(a) && !steps[i].MasterRestart?
    ensures a in Exec(canon, c, steps).agents && Exec(canon, c, steps).agents[a] == c.agents[a]
  {
    if steps != [] {
      var front, step := steps[..|steps| - 1], steps[|steps| - 1];
      OrphanStaysStale(canon, c, a, front);
      var before := Exec(canon, c, front);
      hide NextMaster, Received;
      OrphanStep(canon, before.master, c.agents[a], step);
    }
  }

  lemma OrphanStep(canon: Canon, m: Master, agent: Agent, step: Step)
    requires Idle(agent) && Orphaned(agent) && !step.MasterRestart?
    ensures OfAgent(step) && !step.Disconnect? ==> NextAgent(canon, m, agent, step) == agent
    ensures !OfAgent(step) ==> Reached(m, agent, step) == agent
  {
    var s := agent.session;
    assert s.wire == [] && s.queue == [];
    assert s.(registered := false) == s;
  }
}
