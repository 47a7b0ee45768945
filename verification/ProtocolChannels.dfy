/** The state machine's queues are the coordinator's channels: what the class does to a subscriber is what
    the steps of `Protocol` do to the session it belongs to. */
module ProtocolChannels {
  import opened Events
  import opened WalLog
  import opened ChangeStores
  import opened FileWals
  import opened WalManagers
  import opened Following
  import opened Coordinators
  import opened Protocol

  /** The channel is the queue of the session. */
  ghost predicate IsQueue(c: Coordinator, sub: Subscriber, s: Session)
    reads c, sub
  {
    && sub in c.channels
    && s.Streaming? && s.queue == sub.ch && s.room == sub.room && s.open == sub.open
    && (s.registered <==> c.Reaches(sub))
  }

  /** A publish that succeeds is a broadcast of its version to every session; one that fails is none. */
  method PublishIsBroadcast(c: Coordinator, sub: Subscriber, s: Session, log: seq<Pub>, pub: Pub, broken: set<nat>)
    returns (r: Result<nat, CoordinatorError>)
    requires c.Valid() && IsQueue(c, sub, s) && Latest(c.manager.wal.Log()) == |log| < MAX_INDEX
    modifies c`subscribers, c.channels, c.manager.wal`files, c.manager.store
    ensures c.Valid()
    ensures r.Ok? ==> r.value == |log| + 1 && IsQueue(c, sub, Offered(s, NormalOf(log + [pub], r.value)))
    ensures r.Err? ==> IsQueue(c, sub, s)
  {
    hide WALManager.Valid, FileWAL.Log, Latest, Appended, Writable;
    r := c.Publish(FromLog(pub.key.kind), pub.key.host, pub.bin, broken);
  }

  /** A subscription that is accepted is the Register step of a session that read the backlog at once. */
  method SubscribeIsRegister(c: Coordinator, canon: Canon, m: Master, agent: Agent, a: AgentId, key: string)
    returns (r: Result<Subscriber, SubscribeError>)
    requires c.Valid() && c.manager.wal.Log() == m.wal && c.manager.store.canon == canon
    requires c.manager.store.data == m.store && Latest(m.wal) == |m.log|
    requires agent.session == Reading(|m.log|, m.torn, [], Backlog(canon, m, agent.cursor))
    modifies c`subscribers, c`channels
    ensures c.Valid()
    ensures r.Err? <==> NextAgent(canon, m, agent.(session := Down), Subscribe(a)).session.Down?
    ensures r.Ok? ==> IsQueue(c, r.value, NextAgent(canon, m, agent, Register(a)).session)
  {
    hide WALManager.Valid, FileWAL.Log, Latest, SinceOf, Decide, ApplyError;
    r := c.Subscribe(key, agent.cursor);
    assert r.Ok? ==> c.subscribers[key] == r.value && c.Reaches(r.value);
  }

  /** A receive from a channel that holds something is the Send step. */
  method TakeIsSend(c: Coordinator, sub: Subscriber, canon: Canon, m: Master, agent: Agent, a: AgentId)
    returns (change: Option<Envelope>)
    requires IsQueue(c, sub, agent.session) && sub.ch != []
    modifies sub`ch
    ensures var after := NextAgent(canon, m, agent, Send(a)).session;
            IsQueue(c, sub, after) && change.Some? && after.wire == agent.session.wire + [change.value]
  {
    hide Decide, ApplyError;
    change := sub.Take();
  }

  /** A handler that returns is the Unregister step of the session registered under its key, and no other
      session hears of it. */
  method CleanupIsUnregister(c: Coordinator, own: Subscriber, sub: Subscriber, canon: Canon, m: Master, agent: Agent,
                             a: AgentId)
    requires c.Valid() && sub != own && IsQueue(c, sub, agent.session)
    modifies c`subscribers, own`open
    ensures IsQueue(c, sub, if sub.key == own.key then NextAgent(canon, m, agent, Unregister(a)).session
                            else agent.session)
  {
    hide WALManager.Valid, FileWAL.Log, Latest, Decide, ApplyError;
    var _ := c.Cleanup(own);
  }
}
