/** The state machine's agent is the follower: receiving and saving in `Protocol` is the follower loop of
    `Following`, message by message and over a whole stream. */
module ProtocolFollower {
  import opened Events
  import opened ChangeStores
  import opened Following
  import opened Protocol
  import opened ProtocolConvergence

  /** The loop's variables in a session of the state machine, with what it applied so far. */
  function ProgressOf(agent: Agent, applied: seq<Envelope>): Progress
    requires agent.session.Streaming?
  {
    Progress(agent.cursor, agent.session.recovering, applied, None)
  }

  /** The agent is where the follower loop is: in a session with the loop's variables, or out of it by the
      loop's error; and it holds what the loop applied. */
  ghost predicate At(canon: Canon, start: Data, agent: Agent, wire: seq<Envelope>, p: Progress) {
    && agent.store == StoreAfter(canon, start, p.applied) && agent.cursor == p.current
    && match p.error
       case Some(e) => agent.session.Down? && e in agent.failures
       case None =>
         && agent.session.Streaming? && agent.session.wire == wire && agent.session.saving.None?
         && agent.session.recovering == p.recovering
  }

  /** One message: Receive followed by Save is one step of the follower loop. */
  lemma ReceiveAndSaveIsStep(canon: Canon, m: Master, start: Data, agent: Agent, a: AgentId, wire: seq<Envelope>,
                             p: Progress)
    requires wire != [] && p.error.None? && At(canon, start, agent, wire, p)
    ensures var after := NextAgent(canon, m, NextAgent(canon, m, agent, Receive(a)), Save(a));
            At(canon, start, after, wire[1..], Following.Step(p, Some(wire[0])))
  {
    hide KeyOf, ApplyError, StoreAfter, Decide;
    var change := wire[0];
    match Decide(p.current, p.recovering, change)
    case Apply =>
      if ApplyError(change).None? {
        AppliedIsStep(canon, m, start, agent, a, wire, p);
      }
    case _ =>
  }

  /** A stop in the middle of replacing a file is a receive whose object is gone: writing the message's
      bytes under its path would give what the receive gives. The cursor and all other objects stay, so
      a later session brings the message again. */
  lemma StopIsHalfReceive(canon: Canon, m: Master, agent: Agent, a: AgentId)
    requires agent.session.Streaming? && agent.session.saving.None? && agent.session.wire != []
    ensures var e := agent.session.wire[0];
            var stopped, applied := NextAgent(canon, m, agent, StopInApply(a)), NextAgent(canon, m, agent, Receive(a));
            if Decide(agent.cursor, agent.session.recovering, e).Apply? && ApplyError(e).None?
            then canon(KeyOf(e)) !in stopped.store && stopped.store[canon(KeyOf(e)) := e.bin] == applied.store
                 && stopped.session.Down? && stopped.cursor == agent.cursor
            else stopped == agent
  {
    hide Decide, ApplyError, KeyOf;
  }

  lemma AppliedIsStep(canon: Canon, m: Master, start: Data, agent: Agent, a: AgentId, wire: seq<Envelope>, p: Progress)
    requires wire != [] && p.error.None? && At(canon, start, agent, wire, p)
    requires Decide(p.current, p.recovering, wire[0]).Apply? && ApplyError(wire[0]).None?
    ensures var after := NextAgent(canon, m, NextAgent(canon, m, agent, Receive(a)), Save(a));
            At(canon, start, after, wire[1..], Following.Step(p, Some(wire[0])))
  {
    hide KeyOf, ApplyError, StoreAfter, Decide;
    AppliedNext(canon, start, p.applied, wire[0]);
  }

  lemma AppliedNext(canon: Canon, start: Data, applied: seq<Envelope>, change: Envelope)
    ensures StoreAfter(canon, start, applied + [change])
         == StoreAfter(canon, start, applied)[canon(KeyOf(change)) := change.bin]
  {
    assert (applied + [change])[..|applied|] == applied;
    hide KeyOf;
  }

  /** n messages received and saved. */
  function Receives(a: AgentId, n: nat): seq<Step> {
    if n == 0 then [] else Receives(a, n - 1) + [Receive(a), Save(a)]
  }

  function Delivered(all: seq<Envelope>): seq<Option<Envelope>> {
    seq(|all|, i requires 0 <= i < |all| => Some(all[i]))
  }

  /** A whole stream: the agent ends where the follower's consume loop ends on the same messages, be it by
      an error in the middle. */
  lemma {:induction false} StreamIsConsumed(canon: Canon, m: Master, agent: Agent, a: AgentId, n: nat)
    requires agent.session.Streaming? && agent.session.saving.None? && n <= |agent.session.wire|
    ensures var all := agent.session.wire;
            At(canon, agent.store, AgentExec(canon, m, agent, Receives(a, n)), all[n..],
               Consumed(ProgressOf(agent, []), Delivered(all[..n])))
  {
    var all, start := agent.session.wire, ProgressOf(agent, []);
    if n == 0 {
      assert all[0..] == all && Delivered(all[..0]) == [];
    } else {
      hide Following.Step, NextAgent, At;
      StreamIsConsumed(canon, m, agent, a, n - 1);
      var before := AgentExec(canon, m, agent, Receives(a, n - 1));
      var p := Consumed(start, Delivered(all[..n - 1]));
      AgentExecConcat(canon, m, agent, Receives(a, n - 1), [Receive(a), Save(a)]);
      AgentExecTwo(canon, m, before, Receive(a), Save(a));
      assert Delivered(all[..n])[..n - 1] == Delivered(all[..n - 1]) && Delivered(all[..n])[n - 1] == Some(all[n - 1]);
      assert all[n - 1..][0] == all[n - 1] && all[n - 1..][1..] == all[n..];
      if p.error.None? {
        ReceiveAndSaveIsStep(canon, m, agent.store, before, a, all[n - 1..], p);
      } else {
        AfterTheError(canon, m, agent.store, before, a, all[n - 1..], all[n..], p, Some(all[n - 1]));
      }
    }
  }

  lemma AgentExecTwo(canon: Canon, m: Master, agent: Agent, s: Step, t: Step)
    ensures AgentExec(canon, m, agent, [s, t]) == NextAgent(canon, m, NextAgent(canon, m, agent, s), t)
  {
    hide NextAgent;
    AgentExecOne(canon, m, agent, s);
    AgentExecConcat(canon, m, agent, [s], [t]);
    AgentExecOne(canon, m, AgentExec(canon, m, agent, [s]), t);
    assert [s] + [t] == [s, t];
  }

  /** Once out of the session nothing more is received, by either. */
  lemma AfterTheError(canon: Canon, m: Master, start: Data, agent: Agent, a: AgentId, wire: seq<Envelope>,
                      rest: seq<Envelope>, p: Progress, received: Option<Envelope>)
    requires p.error.Some? && At(canon, start, agent, wire, p)
    ensures At(canon, start, NextAgent(canon, m, NextAgent(canon, m, agent, Receive(a)), Save(a)), rest,
               Following.Step(p, received))
  {
    hide StoreAfter;
  }
}
