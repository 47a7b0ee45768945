/** Where the messages of a stream come from: every RECOVER message was read at some Load step, with the
    bytes its object had at that step. */
module ProtocolOrigin {
  import opened Events
  import opened WalLog
  import opened ChangeStores
  import opened Following
  import opened Protocol
  import opened ProtocolBasics
  import opened ProtocolAgreement

  /** The messages on their way to an agent. */
  function Messages(agent: Agent): seq<Envelope> {
    match agent.session
    case Reading(_, _, _, backlog) => backlog
    case Streaming(_, _, wire, queue, _, _, _, _, _, _, _) => wire + queue
    case _ => []
  }

  /** The agent's next Load step reads this message. */
  ghost predicate ReadsNow(canon: Canon, m: Master, agent: Agent, e: Envelope) {
    agent.session.Reading? && agent.session.left != []
              && Entry(agent.session.left[0], agent.cursor, canon, m.store) == [e]
  }

  /** Step k of the run is the Load step that read this message for agent a. */
  ghost predicate ReadAt(canon: Canon, start: Cluster, steps: seq<Step>, a: AgentId, e: Envelope, k: nat) {
    && k < |steps| && steps[k] == Load(a)
    && var c := Exec(canon, start, steps[..k]);
       a in c.agents && ReadsNow(canon, c.master, c.agents[a], e)
  }

  /** Reading an item that is on top and past the cursor gives one message, which cannot be applied exactly
      when the item's object is empty at that moment. */
  lemma LoadedEmptyIff(canon: Canon, m: Master, snap: nat, item: Item, from: nat)
    requires MasterBasic(canon, m) && LeftBasic(m.log, snap, [item]) && item.status == OnTop && item.index > from
    ensures var entry := Entry(item, from, canon, m.store);
            && |entry| == 1 && canon(item.key) in m.store
            && (ApplyError(entry[0]).Some? <==> m.store[canon(item.key)] == [])
  {
    EntryIs(canon, m, snap, item, from);
    hide MasterBasic;
  }

  lemma ReadBytes(canon: Canon, m: Master, agent: Agent, e: Envelope)
    requires ReadsNow(canon, m, agent, e)
    ensures e.tier.Recover? && canon(KeyOf(e)) in m.store && e.bin == Stored(m, canon(KeyOf(e)))
  {
    var item := agent.session.left[0];
    KeyOfRecovered(item, if canon(item.key) in m.store then m.store[canon(item.key)] else []);
  }

  /** Only Load steps bring new RECOVER messages. */
  lemma NewMessages(canon: Canon, c: Cluster, step: Step, a: AgentId, e: Envelope)
    requires a in c.agents && e.tier.Recover? && e in Messages(Next(canon, c, step).agents[a])
    ensures e in Messages(c.agents[a]) || (step == Load(a) && ReadsNow(canon, c.master, c.agents[a], e))
  {
    hide NextAgent, NextMaster, Reached, ReadsNow, Messages;
    if OfAgent(step) {
      if step.a == a {
        NewFromAgent(canon, c.master, c.agents[a], step, e);
      }
    } else {
      NewFromMaster(c.master, c.agents[a], step, e);
    }
  }

  lemma NewFromMaster(m: Master, agent: Agent, step: Step, e: Envelope)
    requires e.tier.Recover? && e in Messages(Reached(m, agent, step))
    ensures e in Messages(agent)
  {
  }

  lemma NewFromAgent(canon: Canon, m: Master, agent: Agent, step: Step, e: Envelope)
    requires OfAgent(step) && e in Messages(NextAgent(canon, m, agent, step))
    ensures e in Messages(agent) || (step.Load? && ReadsNow(canon, m, agent, e))
  {
    hide Entry, Decide, ApplyError, KeyOf;
    if step.Load? {
      EntrySize(agent.session, agent.cursor, canon, m.store);
    }
  }

  lemma EntrySize(s: Session, from: nat, canon: Canon, data: Data)
    ensures s.Reading? && s.left != [] ==> |Entry(s.left[0], from, canon, data)| <= 1
  {
  }

  lemma {:induction false} EveryRecoverWasRead(canon: Canon, ids: set<AgentId>, steps: seq<Step>, a: AgentId,
                                               e: Envelope)
    requires a in Exec(canon, Init(ids), steps).agents && e.tier.Recover?
    requires e in Messages(Exec(canon, Init(ids), steps).agents[a])
    ensures exists k: nat :: ReadAt(canon, Init(ids), steps, a, e, k)
  {
    hide Next, Messages, ReadsNow;
    if steps == [] {
      NoMessages(canon, ids, a);
    } else {
      var front, step := steps[..|steps| - 1], steps[|steps| - 1];
      var before := Exec(canon, Init(ids), front);
      SameAgents(canon, before, step);
      NewMessages(canon, before, step, a, e);
      if e in Messages(before.agents[a]) {
        EveryRecoverWasRead(canon, ids, front, a, e);
        var k: nat :| ReadAt(canon, Init(ids), front, a, e, k);
        assert steps[..k] == front[..k];
        assert ReadAt(canon, Init(ids), steps, a, e, k);
      } else {
        assert ReadAt(canon, Init(ids), steps, a, e, |steps| - 1);
      }
    }
  }

  lemma NoMessages(canon: Canon, ids: set<AgentId>, a: AgentId)
    requires a in Exec(canon, Init(ids), []).agents
    ensures Messages(Exec(canon, Init(ids), []).agents[a]) == []
  {
  }

  lemma SameAgents(canon: Canon, c: Cluster, step: Step)
    ensures Next(canon, c, step).agents.Keys == c.agents.Keys
  {
    hide NextAgent, NextMaster, Reached;
  }

  // ---------------------------------------------------------------------------------------------
  // Broadcasts that a restart of the master forgets

  /** What is still to be broadcast, and every NORMAL message on its way, is past version n. */
  ghost predicate OnlyPast(c: Cluster, n: nat) {
    && n <= |c.master.log|
    && (forall v :: v in c.master.pending ==> v > n)
    && forall a, e :: a in c.agents && e in Messages(c.agents[a]) && !e.tier.Recover? ==> e.version > n
  }

  lemma MasterKeepsPast(canon: Canon, c: Cluster, step: Step, n: nat)
    requires n <= |c.master.log| && (forall v :: v in c.master.pending ==> v > n) && !OfAgent(step)
    ensures var m := NextMaster(canon, c.master, step); n <= |m.log| && forall v :: v in m.pending ==> v > n
  {
    hide Tears, FindOnTop, Mark, Appended, Complete, Accepted, WriteAt, Stored, Without;
    if step.Broadcast? && step.i < |c.master.pending| {
      WithoutHas(c.master.pending, step.i);
    }
  }

  lemma WithoutHas<T>(s: seq<T>, i: nat)
    requires i < |s|
    ensures forall x :: x in Without(s, i) ==> x in s
  {
  }

  lemma ReachedKeepsPast(m: Master, agent: Agent, step: Step, n: nat)
    requires forall v :: v in m.pending ==> v > n
    requires forall e :: e in Messages(agent) && !e.tier.Recover? ==> e.version > n
    ensures forall e :: e in Messages(Reached(m, agent, step)) && !e.tier.Recover? ==> e.version > n
  {
    if step.Broadcast? && step.i < |m.pending| && 0 < m.pending[step.i] <= |m.log| {
      var e := NormalOf(m.log, m.pending[step.i]);
      assert m.pending[step.i] in m.pending;
      assert forall x :: x in Messages(Reached(m, agent, step)) ==> x in Messages(agent) || x == e;
    }
  }

  lemma AgentKeepsPast(canon: Canon, m: Master, agent: Agent, step: Step, n: nat)
    requires OfAgent(step)
    requires forall e :: e in Messages(agent) && !e.tier.Recover? ==> e.version > n
    ensures forall e :: e in Messages(NextAgent(canon, m, agent, step)) && !e.tier.Recover? ==> e.version > n
  {
    hide NextAgent, Messages;
    forall e | e in Messages(NextAgent(canon, m, agent, step)) && !e.tier.Recover? ensures e.version > n {
      NewFromAgent(canon, m, agent, step, e);
      if ReadsNow(canon, m, agent, e) {
        ReadBytes(canon, m, agent, e);
      }
    }
  }

  lemma NextKeepsPast(canon: Canon, c: Cluster, step: Step, n: nat)
    requires OnlyPast(c, n)
    ensures OnlyPast(Next(canon, c, step), n)
  {
    hide NextAgent, NextMaster, Reached, Messages;
    if OfAgent(step) {
      if step.a in c.agents {
        AgentKeepsPast(canon, c.master, c.agents[step.a], step, n);
      }
    } else {
      MasterKeepsPast(canon, c, step, n);
      forall a | a in c.agents
        ensures forall e :: e in Messages(Reached(c.master, c.agents[a], step)) && !e.tier.Recover? ==> e.version > n
      {
        ReachedKeepsPast(c.master, c.agents[a], step, n);
      }
    }
  }

  /** A version that was not broadcast before a restart of the master never is: whatever steps follow,
      every NORMAL message is past the log at the restart. */
  lemma {:induction false} RestartForgetsBroadcasts(canon: Canon, c: Cluster, steps: seq<Step>)
    ensures OnlyPast(Exec(canon, Next(canon, c, MasterRestart), steps), |c.master.log|)
  {
    if steps != [] {
      hide Next, OnlyPast;
      var front := steps[..|steps| - 1];
      RestartForgetsBroadcasts(canon, c, front);
      NextKeepsPast(canon, Exec(canon, Next(canon, c, MasterRestart), front), steps[|steps| - 1], |c.master.log|);
    }
  }

  /** The next message cannot be applied exactly when it is a RECOVER message that was read while its
      object was empty. */
  lemma UnappliableIffReadEmpty(canon: Canon, ids: set<AgentId>, steps: seq<Step>, a: AgentId)
    requires var c := Exec(canon, Init(ids), steps);
             a in c.agents && c.agents[a].session.Streaming? && c.agents[a].session.wire != []
    ensures var e := Exec(canon, Init(ids), steps).agents[a].session.wire[0];
            ApplyError(e).Some? <==>
              exists k: nat :: ReadAt(canon, Init(ids), steps, a, e, k)
                          && Stored(Exec(canon, Init(ids), steps[..k]).master, canon(KeyOf(e))) == []
  {
    hide Exec, ApplyError, ReadsNow, Decide, StreamBasic, ReadBasic, NoRecover, MasterBasic, KeyOf;
    var c := Exec(canon, Init(ids), steps);
    var s := c.agents[a].session;
    var e := s.wire[0];
    EveryRunIsBasic(canon, ids, steps);
    BasicParts(canon, c);
    Bounded(canon, c.master);
    assert (s.wire + s.queue)[0] == e;
    HeadOutcome(c.master.log, s.snap, s.lost, Current(c.agents[a]), s.recovering, s.wire + s.queue);
    forall k: nat | ReadAt(canon, Init(ids), steps, a, e, k)
      ensures e.bin == Stored(Exec(canon, Init(ids), steps[..k]).master, canon(KeyOf(e)))
    {
      var was := Exec(canon, Init(ids), steps[..k]);
      ReadBytes(canon, was.master, was.agents[a], e);
    }
    if e.bin == [] {
      assert e in s.wire + s.queue;
      EveryRecoverWasRead(canon, ids, steps, a, e);
    }
  }
}
