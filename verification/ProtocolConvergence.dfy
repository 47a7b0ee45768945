/** Compaction preserves meaning, and a delivered backlog brings an agent level with the master. */
module ProtocolConvergence {
  import opened Events
  import opened WalLog
  import opened ChangeStores
  import opened Following
  import opened Protocol
  import opened ProtocolBasics
  import opened ProtocolAgreement

  // ---------------------------------------------------------------------------------------------
  // Compaction

  /** The store after persisting these publishes in order. */
  function Replay(canon: Canon, log: seq<Pub>): Data {
    if log == [] then map[]
    else Replay(canon, log[..|log| - 1])[canon(log[|log| - 1].key) := log[|log| - 1].bin]
  }

  lemma {:induction false} ReplayHoldsNewest(canon: Canon, log: seq<Pub>, path: StorePath)
    ensures path in Replay(canon, log) <==> Newest(canon, log, path) > 0
    ensures path in Replay(canon, log) ==> Replay(canon, log)[path] == log[Newest(canon, log, path) - 1].bin
  {
    if log != [] {
      ReplayHoldsNewest(canon, log[..|log| - 1], path);
    }
  }

  /** Applying changes that agree on a path's bytes leaves those bytes, or what was there. */
  lemma {:induction false} StoreAfterAt(canon: Canon, data: Data, changes: seq<Envelope>, path: StorePath, bin: Bytes)
    requires forall i :: 0 <= i < |changes| && canon(KeyOf(changes[i])) == path ==> changes[i].bin == bin
    ensures var touched := exists i :: 0 <= i < |changes| && canon(KeyOf(changes[i])) == path;
            && (touched ==> path in StoreAfter(canon, data, changes) && StoreAfter(canon, data, changes)[path] == bin)
            && (!touched ==> (path in StoreAfter(canon, data, changes) <==> path in data))
            && (!touched && path in data ==> StoreAfter(canon, data, changes)[path] == data[path])
  {
    if changes != [] {
      var front := changes[..|changes| - 1];
      StoreAfterAt(canon, data, front, path, bin);
      assert forall i :: 0 <= i < |front| ==> front[i] == changes[i];
      assert changes[|changes| - 1] == changes[|front|];
      if i :| 0 <= i < |changes| && canon(KeyOf(changes[i])) == path {
        assert i < |front| ==> canon(KeyOf(front[i])) == path;
      }
    }
  }

  /** Compaction preserves meaning: from any version v of any log, applying in order what Since(v)
      yields - on top by raw key, filed by store path - gives the store the whole log gives. */
  lemma CompactionPreservesMeaning(canon: Canon, log: seq<Pub>, v: nat)
    requires v <= |log| < MAX_INDEX && forall i :: 0 <= i < |log| ==> Accepted(log[i])
    ensures StoreAfter(canon, Replay(canon, log[..v]), SinceOf(LogOf(KeysIn(log)), v, canon, Replay(canon, log)))
            == Replay(canon, log)
  {
    hide *;
    var m := Master(log, LogOf(KeysIn(log)), {}, Replay(canon, log), [], []);
    ReplayedIsBasic(canon, log);
    BacklogKeeps(canon, m, v);
    BacklogIs(canon, m, v);
    var out := Backlog(canon, m, v);
    var after := StoreAfter(canon, Replay(canon, log[..v]), out);
    forall path ensures path in after <==> path in m.store
                ensures path in m.store ==> after[path] == m.store[path] {
      CompactedPath(canon, m, v, out, path);
    }
    SameData(after, m.store);
  }

  lemma SameData(a: Data, b: Data)
    requires forall path :: path in a <==> path in b
    requires forall path :: path in b ==> a[path] == b[path]
    ensures a == b
  {
  }

  lemma ReplayedIsBasic(canon: Canon, log: seq<Pub>)
    requires |log| < MAX_INDEX && forall i :: 0 <= i < |log| ==> Accepted(log[i])
    ensures MasterBasic(canon, Master(log, LogOf(KeysIn(log)), {}, Replay(canon, log), [], []))
  {
    LogOfFits(log);
    hide LogOf, Accepted, WalFits;
    var whole := Replay(canon, log);
    forall i | 0 <= i < |log| ensures canon(log[i].key) in whole {
      ReplayHoldsNewest(canon, log, canon(log[i].key));
      assert KeyAt(log, i + 1) == log[i].key;
      NewestLast(canon, log, canon(log[i].key), i + 1);
    }
  }

  /** The log file written by whole appends alone. */
  lemma LogOfFits(log: seq<Pub>)
    ensures WalFits(log, LogOf(KeysIn(log)), {})
  {
    LogOfDense(KeysIn(log));
    ExactFits(log, LogOf(KeysIn(log)));
    hide LogOf, Exact, Dense, Carries, WalFits;
  }

  lemma ExactFits(log: seq<Pub>, wal: seq<Item>)
    requires Exact(wal) && Dense(wal) && Carries(wal, KeysIn(log))
    ensures WalFits(log, wal, {})
  {
    hide NewestOf;
    assert forall i :: 0 <= i < |wal| ==> wal[i].key == KeyAt(log, i + 1);
    forall i | 0 <= i < |wal| ensures wal[i].status == OnTop <==> LastRaw(log, |log|, i + 1) {
      LastEither(log, wal, i);
    }
    hide Exact, LastRaw, KeyAt;
  }

  lemma LastEither(log: seq<Pub>, wal: seq<Item>, i: nat)
    requires i < |wal| == |log| && forall j :: 0 <= j < |wal| ==> wal[j].key == KeyAt(log, j + 1)
    ensures LastOfKey(wal, i) <==> LastRaw(log, |log|, i + 1)
  {
    if LastOfKey(wal, i) {
      forall u | i + 1 < u <= |log| ensures KeyAt(log, u) != KeyAt(log, i + 1) {
        assert wal[u - 1].key != wal[i].key;
      }
    }
    if LastRaw(log, |log|, i + 1) {
      forall j | i < j < |wal| ensures wal[j].key != wal[i].key {
        assert KeyAt(log, j + 1) != KeyAt(log, i + 1);
      }
    }
  }

  lemma CompactedPath(canon: Canon, m: Master, v: nat, out: seq<Envelope>, path: StorePath)
    requires v <= |m.log| && m.store == Replay(canon, m.log) && m.torn == {}
    requires StreamBasic(m.log, |m.log|, m.torn, v, out)
    requires forall i :: 0 <= i < |out| ==> StoredNow(canon, m, out[i]) && out[i].version > v
    ensures var after := StoreAfter(canon, Replay(canon, m.log[..v]), out);
            && (path in after <==> path in m.store)
            && (path in m.store ==> after[path] == m.store[path])
  {
    hide *;
    ReplayHoldsNewest(canon, m.log, path);
    ReplayHoldsNewest(canon, m.log[..v], path);
    NewestOfPrefix(canon, m.log, v, path);
    TouchedAt(canon, m, v, out, path);
    TouchesIs(canon, m, out, path);
    StoreAfterAt(canon, Replay(canon, m.log[..v]), out, path, if path in m.store then m.store[path] else []);
  }

  ghost predicate Touches(canon: Canon, all: seq<Envelope>, path: StorePath) {
    exists i :: 0 <= i < |all| && canon(KeyOf(all[i])) == path
  }

  /** A backlog past v touches a path only if its newest version is past v, and then it does unless
      that version is torn. */
  lemma TouchedAt(canon: Canon, m: Master, v: nat, out: seq<Envelope>, path: StorePath)
    requires v <= |m.log| && StreamBasic(m.log, |m.log|, m.torn, v, out)
    requires forall i :: 0 <= i < |out| ==> StoredNow(canon, m, out[i]) && out[i].version > v
    ensures Touches(canon, out, path) ==> Newest(canon, m.log, path) > v
    ensures Newest(canon, m.log, path) > v && Newest(canon, m.log, path) !in m.torn ==> Touches(canon, out, path)
    ensures forall i :: 0 <= i < |out| && canon(KeyOf(out[i])) == path ==>
              path in m.store && out[i].bin == m.store[path]
  {
    var n := Newest(canon, m.log, path);
    hide Newest, LastRaw;
    if i :| 0 <= i < |out| && canon(KeyOf(out[i])) == path {
      assert MessageBasic(m.log, |m.log|, out[i]) && StoredNow(canon, m, out[i]);
      NewestOfMessage(canon, m.log, |m.log|, out[i]);
    }
    if n > v && n !in m.torn {
      NewestIsLastRaw(canon, m.log, path, |m.log|);
      assert WasOnTop(m.log, |m.log|, m.torn, v, n);
      var i :| 0 <= i < |out| && out[i].tier.Recover? && out[i].version == n;
      assert MessageBasic(m.log, |m.log|, out[i]);
    }
  }

  lemma {:induction false} NewestOfPrefix(canon: Canon, log: seq<Pub>, v: nat, path: StorePath)
    requires v <= |log|
    ensures Newest(canon, log, path) <= v ==> Newest(canon, log[..v], path) == Newest(canon, log, path)
    decreases |log|
  {
    if v == |log| {
      assert log[..v] == log;
    } else {
      assert log[..|log| - 1][..v] == log[..v];
      NewestOfPrefix(canon, log[..|log| - 1], v, path);
    }
  }

  // ---------------------------------------------------------------------------------------------
  // Convergence of a drained agent

  /** Every path's newest version can be had from the log file. */
  ghost predicate Whole(canon: Canon, m: Master) {
    forall path :: Newest(canon, m.log, path) > 0 ==> Newest(canon, m.log, path) !in m.torn
  }

  /** An agent whose session's snapshot is the master's present log and whose stream holds no
      RECOVER message any more. */
  ghost predicate Drained(m: Master, agent: Agent) {
    && agent.session.Streaming?
    && agent.session.snap == |m.log|
    && agent.session.saving.None?
    && NoRecover(agent.session.wire + agent.session.queue)
  }

  /** The newest version was on top, unless torn, so a delivered backlog leaves the cursor at Latest. */
  lemma DrainedCursor(log: seq<Pub>, torn: set<nat>, agent: Agent)
    requires AgentBasic(log, torn, agent) && agent.session.Streaming? && agent.session.saving.None?
    requires NoRecover(agent.session.wire + agent.session.queue) && agent.session.snap !in agent.session.lost
    ensures agent.cursor >= agent.session.snap
  {
    var s := agent.session;
    NothingHeld(s.wire + s.queue, s.snap);
    hide Holds, NoRecover, StreamBasic;
    SnapHeldOrLow(log, s.snap, s.lost, agent.cursor, s.wire + s.queue);
  }

  lemma SnapHeldOrLow(log: seq<Pub>, snap: nat, lost: set<nat>, from: nat, all: seq<Envelope>)
    requires StreamBasic(log, snap, lost, from, all) && snap !in lost
    ensures from < snap ==> Holds(all, snap)
  {
    hide Holds;
    assert snap > 0 ==> LastRaw(log, snap, snap);
    assert from < snap ==> WasOnTop(log, snap, lost, from, snap);
  }

  lemma NothingHeld(all: seq<Envelope>, w: nat)
    requires NoRecover(all)
    ensures !Holds(all, w)
  {
  }

  /** Agreement on every path. */
  ghost predicate AllAgree(canon: Canon, c: Cluster) {
    Basic(canon, c) && forall path :: Agreeing(canon, c, path)
  }

  /** Convergence: where every path agrees and none is in flight, an agent whose backlog was
      delivered holds exactly the master's store, and its cursor is Latest. */
  lemma DeliveredBacklogConverges(canon: Canon, c: Cluster, a: AgentId)
    requires AllAgree(canon, c) && a in c.agents && c.master.inflight == []
    requires Drained(c.master, c.agents[a])
    ensures c.agents[a].store == c.master.store && c.agents[a].cursor == |c.master.log|
  {
    var m, agent := c.master, c.agents[a];
    BasicParts(canon, c);
    QuietIsWhole(canon, c);
    hide *;
    CursorBound(m, agent);
    LatestNotTorn(canon, m, agent.session);
    DrainedCursor(m.log, m.torn, agent);
    LevelAtLatest(canon, c, a);
  }

  /** In a disciplined run nothing stays torn: with nothing in flight the log file is whole. */
  lemma QuietIsWhole(canon: Canon, c: Cluster)
    requires AllAgree(canon, c) && c.master.inflight == []
    ensures Whole(canon, c.master)
  {
    hide Basic, MasterAgrees, AgentAgrees, Newest;
    forall path | Newest(canon, c.master.log, path) > 0 ensures Newest(canon, c.master.log, path) !in c.master.torn {
      assert Agreeing(canon, c, path);
      NoPuts(canon, path);
    }
  }

  lemma CursorBound(m: Master, agent: Agent)
    requires AgentBasic(m.log, m.torn, agent)
    ensures agent.cursor <= |m.log|
    ensures agent.session.Streaming? ==> agent.session.lost <= m.torn
  {
    hide StreamBasic, ReadBasic, NoRecover;
  }

  lemma LatestNotTorn(canon: Canon, m: Master, s: Session)
    requires MasterBasic(canon, m) && Whole(canon, m) && s.Streaming? && s.lost <= m.torn
    ensures |m.log| !in s.lost && |m.log| !in m.torn
  {
    if m.log != [] {
      var path := canon(m.log[|m.log| - 1].key);
      assert Newest(canon, m.log, path) == |m.log|;
    }
  }

  /** With its cursor at Latest an agent that agrees holds the master's store. */
  lemma LevelAtLatest(canon: Canon, c: Cluster, a: AgentId)
    requires AllAgree(canon, c) && a in c.agents && c.master.inflight == []
    requires c.agents[a].cursor == |c.master.log|
    ensures c.agents[a].store == c.master.store
  {
    var m, agent := c.master, c.agents[a];
    QuietIsWhole(canon, c);
    hide AgentBasic, MasterBasic, MasterAgrees, AgentAgrees, Whole, Newest, MendedAt;
    forall path ensures path in agent.store <==> path in m.store
                ensures path in m.store ==> agent.store[path] == m.store[path] {
      assert Agreeing(canon, c, path);
      AgreesBelow(canon, m, agent, path);
      ConvergedAt(canon, m, agent, path);
    }
    SameData(agent.store, m.store);
  }

  lemma ConvergedAt(canon: Canon, m: Master, agent: Agent, path: StorePath)
    requires MasterBasic(canon, m) && MasterAgrees(canon, m, path) && m.inflight == [] && Whole(canon, m)
    requires AgentAgrees(canon, m, agent, path) && Agrees(canon, m, agent.store, |m.log|, path)
    ensures path in agent.store <==> path in m.store
    ensures path in m.store ==> agent.store[path] == m.store[path]
  {
    SettlesIdle(canon, m, path);
    hide Newest, Mends, StreamFresh, WalFits;
    if Newest(canon, m.log, path) > 0 {
      NewestIsStored(canon, m, path);
    }
  }

  // ---------------------------------------------------------------------------------------------
  // One fresh subscription

  /** Steps of one agent, while the master stands still. */
  function AgentExec(canon: Canon, m: Master, agent: Agent, steps: seq<Step>): Agent {
    if steps == [] then agent
    else NextAgent(canon, m, AgentExec(canon, m, agent, steps[..|steps| - 1]), steps[|steps| - 1])
  }

  ghost predicate StepsOf(a: AgentId, steps: seq<Step>) {
    forall i :: 0 <= i < |steps| ==> OfAgent(steps[i]) && steps[i].a == a
  }

  lemma {:induction false} ExecIsAgentExec(canon: Canon, c: Cluster, a: AgentId, steps: seq<Step>)
    requires a in c.agents && StepsOf(a, steps)
    ensures Exec(canon, c, steps) == c.(agents := c.agents[a := AgentExec(canon, c.master, c.agents[a], steps)])
  {
    hide NextAgent;
    if steps != [] {
      ExecIsAgentExec(canon, c, a, steps[..|steps| - 1]);
    }
  }

  lemma {:induction false} AgentExecConcat(canon: Canon, m: Master, agent: Agent, s: seq<Step>, t: seq<Step>)
    ensures AgentExec(canon, m, agent, s + t) == AgentExec(canon, m, AgentExec(canon, m, agent, s), t)
  {
    hide NextAgent;
    if t == [] {
      assert s + t == s;
    } else {
      assert (s + t)[..|s + t| - 1] == s + t[..|t| - 1];
      AgentExecConcat(canon, m, agent, s, t[..|t| - 1]);
    }
  }

  lemma AgentExecOne(canon: Canon, m: Master, agent: Agent, step: Step)
    ensures AgentExec(canon, m, agent, [step]) == NextAgent(canon, m, agent, step)
  {
    assert [step][..0] == [];
    hide NextAgent;
  }

  lemma AgentExecThree(canon: Canon, m: Master, agent: Agent, s: Step, t: Step, u: Step)
    ensures AgentExec(canon, m, agent, [s, t, u])
         == NextAgent(canon, m, NextAgent(canon, m, NextAgent(canon, m, agent, s), t), u)
  {
    hide *;
    AgentExecOne(canon, m, agent, s);
    AgentExecConcat(canon, m, agent, [s], [t]);
    AgentExecOne(canon, m, AgentExec(canon, m, agent, [s]), t);
    AgentExecConcat(canon, m, agent, [s, t], [u]);
    AgentExecOne(canon, m, AgentExec(canon, m, agent, [s, t]), u);
    assert [s] + [t] == [s, t] && [s, t] + [u] == [s, t, u];
  }

  function Reads(a: AgentId, n: nat): seq<Step> {
    if n == 0 then [Disconnect(a), Subscribe(a), Snapshot(a)] else Reads(a, n - 1) + [Load(a)]
  }

  function Deliveries(a: AgentId, n: nat): seq<Step> {
    if n == 0 then [] else Deliveries(a, n - 1) + [Send(a), Receive(a), Save(a)]
  }

  /** One fresh subscription: the whole log file is read, then the backlog delivered and saved. */
  function CatchUp(canon: Canon, m: Master, cursor: nat, a: AgentId): seq<Step> {
    Reads(a, |m.wal|) + [Register(a)] + Deliveries(a, |Backlog(canon, m, cursor)|)
  }

  function CaughtUp(canon: Canon, m: Master, agent: Agent): Agent {
    AgentExec(canon, m, agent, CatchUp(canon, m, agent.cursor, 0))
  }

  /** In the middle of a catch-up: `rest` is still in the channel. */
  ghost predicate Catching(m: Master, agent: Agent, rest: seq<Envelope>) {
    var s := agent.session;
    && s.Streaming? && s.snap == |m.log| && s.lost == m.torn
    && s.wire == [] && s.queue == rest
    && s.recovering && s.saving.None?
  }

  lemma {:induction false} ReadsAre(canon: Canon, m: Master, agent: Agent, a: AgentId, n: nat)
    requires agent.cursor <= |m.log| && n <= |m.wal|
    ensures AgentExec(canon, m, agent, Reads(a, n))
         == agent.(session := Reading(|m.log|, m.torn, m.wal[n..], SinceOf(m.wal[..n], agent.cursor, canon, m.store)))
  {
    if n == 0 {
      hide AgentExec, SinceOf, NextAgent;
      AgentExecThree(canon, m, agent, Disconnect(a), Subscribe(a), Snapshot(a));
      Opened(canon, m, agent, a);
      assert m.wal[0..] == m.wal && m.wal[..0] == [];
      SinceOfNothing(canon, m.store, agent.cursor);
    } else {
      hide *;
      ReadsAre(canon, m, agent, a, n - 1);
      ReadsNext(a, n);
      AgentExecConcat(canon, m, agent, Reads(a, n - 1), [Load(a)]);
      AgentExecOne(canon, m, AgentExec(canon, m, agent, Reads(a, n - 1)), Load(a));
      ReadOne(canon, m, agent, a, n - 1);
    }
  }

  lemma ReadsNext(a: AgentId, n: nat)
    requires n > 0
    ensures Reads(a, n) == Reads(a, n - 1) + [Load(a)]
  {
  }

  lemma ReadOne(canon: Canon, m: Master, agent: Agent, a: AgentId, k: nat)
    requires k < |m.wal|
    ensures NextAgent(canon, m, agent.(session := Reading(|m.log|, m.torn, m.wal[k..],
                                                          SinceOf(m.wal[..k], agent.cursor, canon, m.store))), Load(a))
         == agent.(session := Reading(|m.log|, m.torn, m.wal[k + 1..],
                                      SinceOf(m.wal[..k + 1], agent.cursor, canon, m.store)))
  {
    hide SinceOf, Entry;
    SinceOfNext(m.wal, agent.cursor, canon, m.store, k);
    assert m.wal[k..][0] == m.wal[k] && m.wal[k..][1..] == m.wal[k + 1..];
  }

  lemma Opened(canon: Canon, m: Master, agent: Agent, a: AgentId)
    requires agent.cursor <= |m.log|
    ensures NextAgent(canon, m, NextAgent(canon, m, NextAgent(canon, m, agent, Disconnect(a)), Subscribe(a)),
                      Snapshot(a))
         == agent.(session := Reading(|m.log|, m.torn, m.wal, []))
  {
  }

  lemma Registered(canon: Canon, m: Master, agent: Agent, a: AgentId)
    requires agent.cursor <= |m.log|
    ensures var after := AgentExec(canon, m, agent, Reads(a, |m.wal|) + [Register(a)]);
            && Catching(m, after, Backlog(canon, m, agent.cursor))
            && after.store == agent.store && after.cursor == agent.cursor
  {
    ReadsAre(canon, m, agent, a, |m.wal|);
    AgentExecConcat(canon, m, agent, Reads(a, |m.wal|), [Register(a)]);
    AgentExecOne(canon, m, AgentExec(canon, m, agent, Reads(a, |m.wal|)), Register(a));
    assert m.wal[..|m.wal|] == m.wal && m.wal[|m.wal|..] == [];
    hide AgentExec, SinceOf, Reads;
  }

  /** A RECOVER message past the cursor that can be applied. */
  ghost predicate Ready(e: Envelope) {
    e.tier.Recover? && e.version > 0 && ApplyError(e).None?
  }

  lemma DeliverOne(canon: Canon, m: Master, agent: Agent, a: AgentId, rest: seq<Envelope>)
    requires rest != [] && Catching(m, agent, rest) && Ready(rest[0]) && rest[0].version > agent.cursor
    ensures var after := AgentExec(canon, m, agent, [Send(a), Receive(a), Save(a)]);
            && Catching(m, after, rest[1..])
            && after.store == agent.store[canon(KeyOf(rest[0])) := rest[0].bin] && after.cursor == rest[0].version
  {
    AgentExecThree(canon, m, agent, Send(a), Receive(a), Save(a));
    hide AgentExec, ApplyError, KeyOf;
    var sent := NextAgent(canon, m, agent, Send(a));
    assert sent.session.wire == [rest[0]];
    assert Decide(agent.cursor, true, rest[0]) == Apply;
  }

  ghost predicate AllReady(all: seq<Envelope>, from: nat) {
    && (forall i :: 0 <= i < |all| ==> Ready(all[i]) && all[i].version > from)
    && (forall i, j :: 0 <= i < j < |all| ==> all[i].version < all[j].version)
  }

  function LastVersion(all: seq<Envelope>, from: nat): nat {
    if all == [] then from else all[|all| - 1].version
  }

  lemma {:induction false} DeliveriesAre(canon: Canon, m: Master, agent: Agent, a: AgentId, all: seq<Envelope>, n: nat)
    requires Catching(m, agent, all) && AllReady(all, agent.cursor) && n <= |all|
    ensures var after := AgentExec(canon, m, agent, Deliveries(a, n));
            && Catching(m, after, all[n..])
            && after.store == StoreAfter(canon, agent.store, all[..n])
                      && after.cursor == LastVersion(all[..n], agent.cursor)
  {
    if n == 0 {
      assert all[0..] == all && all[..0] == [];
    } else {
      hide *;
      DeliveriesAre(canon, m, agent, a, all, n - 1);
      DeliveriesNext(a, n);
      DeliveredNext(canon, agent.store, all, agent.cursor, n);
      AgentExecConcat(canon, m, agent, Deliveries(a, n - 1), [Send(a), Receive(a), Save(a)]);
      assert all[n - 1..][0] == all[n - 1] && all[n - 1..][1..] == all[n..];
      DeliverOne(canon, m, AgentExec(canon, m, agent, Deliveries(a, n - 1)), a, all[n - 1..]);
    }
  }

  lemma DeliveriesNext(a: AgentId, n: nat)
    requires n > 0
    ensures Deliveries(a, n) == Deliveries(a, n - 1) + [Send(a), Receive(a), Save(a)]
  {
  }

  lemma DeliveredNext(canon: Canon, store: Data, all: seq<Envelope>, from: nat, n: nat)
    requires AllReady(all, from) && 0 < n <= |all|
    ensures Ready(all[n - 1]) && all[n - 1].version > LastVersion(all[..n - 1], from)
    ensures LastVersion(all[..n], from) == all[n - 1].version
    ensures StoreAfter(canon, store, all[..n])
         == StoreAfter(canon, store, all[..n - 1])[canon(KeyOf(all[n - 1])) := all[n - 1].bin]
  {
    hide Ready, KeyOf;
    assert all[..n][..n - 1] == all[..n - 1];
  }

  /** The bytes a backlog loads are not empty. */
  ghost predicate Loadable(canon: Canon, m: Master, from: nat) {
    forall i :: 0 <= i < |Backlog(canon, m, from)| ==> Backlog(canon, m, from)[i].bin != []
  }

  lemma BacklogReady(canon: Canon, m: Master, from: nat)
    requires MasterBasic(canon, m) && from <= |m.log| && Loadable(canon, m, from)
    ensures AllReady(Backlog(canon, m, from), from)
  {
    BacklogKeeps(canon, m, from);
    hide Backlog, Covered, MasterBasic, LastRaw;
    var out := Backlog(canon, m, from);
    forall i | 0 <= i < |out| ensures Ready(out[i]) {
      assert MessageBasic(m.log, |m.log|, out[i]);
    }
  }

  /** What one fresh subscription does to an agent that is in any state at all. */
  lemma CatchUpIs(canon: Canon, m: Master, agent: Agent, a: AgentId)
    requires MasterBasic(canon, m) && agent.cursor <= |m.log| && Loadable(canon, m, agent.cursor)
    ensures var after := AgentExec(canon, m, agent, CatchUp(canon, m, agent.cursor, a));
            var out := Backlog(canon, m, agent.cursor);
            && Catching(m, after, [])
            && after.store == StoreAfter(canon, agent.store, out) && after.cursor == LastVersion(out, agent.cursor)
  {
    var out := Backlog(canon, m, agent.cursor);
    BacklogReady(canon, m, agent.cursor);
    hide AgentExec, StoreAfter, Catching, Reads, Deliveries, Backlog, MasterBasic, AllReady;
    Registered(canon, m, agent, a);
    var open := AgentExec(canon, m, agent, Reads(a, |m.wal|) + [Register(a)]);
    DeliveriesAre(canon, m, open, a, out, |out|);
    assert out[|out|..] == [] && out[..|out|] == out;
    AgentExecConcat(canon, m, agent, Reads(a, |m.wal|) + [Register(a)], Deliveries(a, |out|));
  }

  // ---------------------------------------------------------------------------------------------
  // Exactly when it levels

  /** What the agent holds of the path is right up to its cursor. */
  ghost predicate RightAt(canon: Canon, m: Master, agent: Agent, path: StorePath) {
    && (path in agent.store ==> Newest(canon, m.log, path) > 0)
    && (0 < Newest(canon, m.log, path) <= agent.cursor ==>
          path in agent.store && NewestIs(canon, m.log, path, agent.store[path]))
  }

  ghost predicate Right(canon: Canon, m: Master, agent: Agent) {
    agent.cursor <= |m.log| && forall path :: RightAt(canon, m, agent, path)
  }

  ghost predicate Level(m: Master, agent: Agent) {
    agent.store == m.store && agent.cursor == |m.log|
  }

  /** What a catch-up leaves under one path. */
  lemma CaughtUpAt(canon: Canon, m: Master, agent: Agent, path: StorePath)
    requires MasterBasic(canon, m) && agent.cursor <= |m.log| && Loadable(canon, m, agent.cursor)
    ensures var after, n := CaughtUp(canon, m, agent), Newest(canon, m.log, path);
            var touched := Touches(canon, Backlog(canon, m, agent.cursor), path);
            && (touched ==> n > agent.cursor && path in m.store)
            && (touched ==> path in after.store && after.store[path] == m.store[path])
            && (n > agent.cursor && n !in m.torn ==> touched)
            && (!touched ==> (path in after.store <==> path in agent.store)
                             && (path in agent.store ==> after.store[path] == agent.store[path]))
  {
    var out := Backlog(canon, m, agent.cursor);
    hide *;
    BacklogKeeps(canon, m, agent.cursor);
    TouchedAt(canon, m, agent.cursor, out, path);
    CaughtUpIs(canon, m, agent);
    StoreAfterAt(canon, agent.store, out, path, if path in m.store then m.store[path] else []);
    TouchesIs(canon, m, out, path);
  }

  lemma TouchesIs(canon: Canon, m: Master, all: seq<Envelope>, path: StorePath)
    requires forall i :: 0 <= i < |all| ==> StoredNow(canon, m, all[i])
    ensures Touches(canon, all, path) <==> exists i :: 0 <= i < |all| && canon(KeyOf(all[i])) == path
    ensures Touches(canon, all, path) ==> path in m.store
  {
  }

  lemma CaughtUpIs(canon: Canon, m: Master, agent: Agent)
    requires MasterBasic(canon, m) && agent.cursor <= |m.log| && Loadable(canon, m, agent.cursor)
    ensures var after, out := CaughtUp(canon, m, agent), Backlog(canon, m, agent.cursor);
            after.store == StoreAfter(canon, agent.store, out) && after.cursor == LastVersion(out, agent.cursor)
  {
    CatchUpIs(canon, m, agent, 0);
    hide AgentExec, CatchUp, StoreAfter, Backlog, MasterBasic;
  }

  lemma CaughtUpCursor(canon: Canon, m: Master, agent: Agent)
    requires MasterBasic(canon, m) && agent.cursor <= |m.log| && Loadable(canon, m, agent.cursor)
    requires |m.log| !in m.torn
    ensures CaughtUp(canon, m, agent).cursor == |m.log|
  {
    var out := Backlog(canon, m, agent.cursor);
    CaughtUpIs(canon, m, agent);
    BacklogKeeps(canon, m, agent.cursor);
    hide CaughtUp, Backlog, MasterBasic, Loadable;
    if agent.cursor < |m.log| {
      LastIsLast(m.log);
      assert WasOnTop(m.log, |m.log|, m.torn, agent.cursor, |m.log|);
      var i :| 0 <= i < |out| && out[i].tier.Recover? && out[i].version == |m.log|;
      assert MessageBasic(m.log, |m.log|, out[|out| - 1]);
    } else {
      NoBacklogPast(canon, m);
    }
  }

  lemma ReplayLoads(canon: Canon, m: Master, from: nat)
    requires MasterBasic(canon, m) && from <= |m.log| && m.store == Replay(canon, m.log)
    ensures Loadable(canon, m, from)
  {
    BacklogKeeps(canon, m, from);
    var out := Backlog(canon, m, from);
    hide Backlog, StreamBasic, WalFits, Replay, Newest;
    forall i | 0 <= i < |out| ensures out[i].bin != [] {
      var path := canon(KeyOf(out[i]));
      assert StoredNow(canon, m, out[i]);
      ReplayHoldsNewest(canon, m.log, path);
      assert Accepted(m.log[Newest(canon, m.log, path) - 1]);
    }
  }

  lemma LevelsOne(canon: Canon, m: Master, agent: Agent)
    requires MasterBasic(canon, m) && m.store == Replay(canon, m.log) && Whole(canon, m) && Right(canon, m, agent)
    ensures Level(m, CaughtUp(canon, m, agent))
  {
    var after := CaughtUp(canon, m, agent);
    ReplayLoads(canon, m, agent.cursor);
    WholeLatest(canon, m);
    hide MasterBasic, CaughtUp, Loadable, Replay, Newest, Touches;
    CaughtUpCursor(canon, m, agent);
    forall path ensures path in after.store <==> path in m.store
                ensures path in m.store ==> after.store[path] == m.store[path] {
      assert RightAt(canon, m, agent, path);
      CaughtUpAt(canon, m, agent, path);
      ReplayHoldsNewest(canon, m.log, path);
    }
    SameData(after.store, m.store);
  }

  lemma WholeLatest(canon: Canon, m: Master)
    requires MasterBasic(canon, m) && Whole(canon, m)
    ensures |m.log| !in m.torn
  {
    if m.log != [] {
      var path := canon(m.log[|m.log| - 1].key);
      assert Newest(canon, m.log, path) == |m.log|;
    }
  }

  /** An agent right at the log's end takes nothing more. */
  lemma AtTheEnd(canon: Canon, m: Master)
    requires MasterBasic(canon, m)
    ensures var agent := Agent(Replay(canon, m.log), |m.log|, Down, {});
            Right(canon, m, agent) && CaughtUp(canon, m, agent).store == Replay(canon, m.log)
  {
    var agent := Agent(Replay(canon, m.log), |m.log|, Down, {});
    NoBacklogPast(canon, m);
    CaughtUpIs(canon, m, agent);
    hide Backlog, CaughtUp, MasterBasic, Replay, Newest;
    forall path ensures RightAt(canon, m, agent, path) {
      ReplayHoldsNewest(canon, m.log, path);
    }
  }

  lemma {:induction false} NothingPast(canon: Canon, wal: seq<Item>, from: nat, data: Data)
    requires forall i :: 0 <= i < |wal| ==> wal[i].index <= from
    ensures SinceOf(wal, from, canon, data) == []
  {
    if wal != [] {
      NothingPast(canon, wal[..|wal| - 1], from, data);
    }
  }

  lemma NoBacklogPast(canon: Canon, m: Master)
    requires MasterBasic(canon, m)
    ensures Backlog(canon, m, |m.log|) == []
  {
    WalParts(canon, m);
    NothingPast(canon, m.wal, |m.log|, m.store);
    hide SinceOf;
  }

  /** An agent just below a torn newest version, and without that path's file, never gets it. */
  lemma BelowTorn(canon: Canon, m: Master, path: StorePath)
    requires MasterBasic(canon, m) && m.store == Replay(canon, m.log)
    requires Newest(canon, m.log, path) > 0 && Newest(canon, m.log, path) in m.torn
    ensures var agent := Agent(Replay(canon, m.log) - {path}, Newest(canon, m.log, path) - 1, Down, {});
            Right(canon, m, agent) && !Level(m, CaughtUp(canon, m, agent))
  {
    hide *;
    var agent := Agent(Replay(canon, m.log) - {path}, Newest(canon, m.log, path) - 1, Down, {});
    RightBelow(canon, m, path);
    ReplayLoads(canon, m, agent.cursor);
    CaughtUpAt(canon, m, agent, path);
    NotTouched(canon, m, path);
    NewestIsStored(canon, m, path);
    NotLevel(m, CaughtUp(canon, m, agent), path);
  }

  lemma NotLevel(m: Master, agent: Agent, path: StorePath)
    ensures path in m.store && path !in agent.store ==> !Level(m, agent)
    ensures path in m.store && path in agent.store && agent.store[path] != m.store[path] ==> !Level(m, agent)
  {
  }

  lemma RightBelow(canon: Canon, m: Master, path: StorePath)
    requires Newest(canon, m.log, path) > 0
    ensures Right(canon, m, Agent(Replay(canon, m.log) - {path}, Newest(canon, m.log, path) - 1, Down, {}))
  {
    hide Replay, Newest;
    var agent := Agent(Replay(canon, m.log) - {path}, Newest(canon, m.log, path) - 1, Down, {});
    forall other ensures RightAt(canon, m, agent, other) {
      ReplayHoldsNewest(canon, m.log, other);
    }
  }

  lemma NotTouched(canon: Canon, m: Master, path: StorePath)
    requires MasterBasic(canon, m) && Newest(canon, m.log, path) > 0 && Newest(canon, m.log, path) in m.torn
    ensures !Touches(canon, Backlog(canon, m, Newest(canon, m.log, path) - 1), path)
  {
    var n := Newest(canon, m.log, path);
    var out := Backlog(canon, m, n - 1);
    BacklogKeeps(canon, m, n - 1);
    NewestIsLastRaw(canon, m.log, path, |m.log|);
    MissingIffTorn(canon, m, n - 1, n);
    hide Backlog, MasterBasic, LastRaw, Newest, Covered;
    forall i | 0 <= i < |out| ensures canon(KeyOf(out[i])) != path {
      assert MessageBasic(m.log, |m.log|, out[i]) && out[i].tier.Recover?;
      NewestOfMessage(canon, m.log, |m.log|, out[i]);
      assert out[i].version != n && out[i].version > n - 1;
    }
  }

  /** One reconnect levels every agent that is right up to its cursor, exactly when the master stores
      what its log says and no path's newest version is torn. */
  lemma CatchUpLevelsIff(canon: Canon, m: Master)
    requires MasterBasic(canon, m)
    ensures (forall agent :: Right(canon, m, agent) ==> Level(m, CaughtUp(canon, m, agent)))
       <==> m.store == Replay(canon, m.log) && Whole(canon, m)
  {
    hide MasterBasic, Right, CaughtUp, Replay, Newest;
    if m.store == Replay(canon, m.log) && Whole(canon, m) {
      forall agent | Right(canon, m, agent) ensures Level(m, CaughtUp(canon, m, agent)) {
        LevelsOne(canon, m, agent);
      }
    }
    if forall agent :: Right(canon, m, agent) ==> Level(m, CaughtUp(canon, m, agent)) {
      AtTheEnd(canon, m);
      forall path | Newest(canon, m.log, path) > 0 ensures Newest(canon, m.log, path) !in m.torn {
        if Newest(canon, m.log, path) in m.torn {
          BelowTorn(canon, m, path);
        }
      }
    }
  }

  // ---------------------------------------------------------------------------------------------
  // Every disciplined run

  ghost predicate AllSerial(canon: Canon, c: Cluster, steps: seq<Step>) {
    forall path :: SerialRun(canon, c, steps, path)
  }

  lemma AllSerialAgree(canon: Canon, ids: set<AgentId>, steps: seq<Step>)
    requires AllSerial(canon, Init(ids), steps)
    ensures AllAgree(canon, Exec(canon, Init(ids), steps))
  {
    hide SerialRun, Exec, Agreeing;
    EveryRunIsBasic(canon, ids, steps);
    forall path ensures Agreeing(canon, Exec(canon, Init(ids), steps), path) {
      SerialRunsAgree(canon, ids, steps, path);
    }
  }

  /** With nothing in flight, agreement is what a catch-up needs. */
  lemma QuietIsRight(canon: Canon, c: Cluster, a: AgentId)
    requires AllAgree(canon, c) && a in c.agents && c.master.inflight == []
    ensures c.master.store == Replay(canon, c.master.log) && Whole(canon, c.master)
              && Right(canon, c.master, c.agents[a])
  {
    var m, agent := c.master, c.agents[a];
    QuietIsWhole(canon, c);
    BasicParts(canon, c);
    CursorBound(m, agent);
    hide AgentBasic, MasterBasic, MasterAgrees, AgentAgrees, Newest, Replay, Basic, Whole, MendedAt;
    forall path ensures path in m.store <==> path in Replay(canon, m.log)
                ensures path in Replay(canon, m.log) ==> m.store[path] == Replay(canon, m.log)[path]
                ensures RightAt(canon, m, agent, path) {
      assert Agreeing(canon, c, path);
      AgreesBelow(canon, m, agent, path);
      QuietAt(canon, m, agent, path);
      ReplayHoldsNewest(canon, m.log, path);
    }
    SameData(m.store, Replay(canon, m.log));
  }

  lemma QuietAt(canon: Canon, m: Master, agent: Agent, path: StorePath)
    requires MasterBasic(canon, m) && MasterAgrees(canon, m, path) && m.inflight == [] && Whole(canon, m)
    requires AgentAgrees(canon, m, agent, path) && Agrees(canon, m, agent.store, agent.cursor, path)
    ensures path in m.store <==> Newest(canon, m.log, path) > 0
    ensures path in m.store ==> NewestIs(canon, m.log, path, m.store[path])
    ensures RightAt(canon, m, agent, path)
  {
    SettlesIdle(canon, m, path);
    hide Newest, Mends, StreamFresh, WalFits;
    if Newest(canon, m.log, path) > 0 {
      NewestIsStored(canon, m, path);
    }
  }

  /** From every state of a disciplined run with no publish in flight, whatever
      state the agent's session is in, one fresh subscription whose backlog is delivered converges:
      it changes nothing at the master, and leaves the agent with the master's store, which is
      what the log says, and the cursor Latest. */
  lemma CatchUpConverges(canon: Canon, ids: set<AgentId>, steps: seq<Step>, a: AgentId)
    requires AllSerial(canon, Init(ids), steps)
    requires var c := Exec(canon, Init(ids), steps);
             a in c.agents && c.master.inflight == []
    ensures var c := Exec(canon, Init(ids), steps);
            var c' := Exec(canon, c, CatchUp(canon, c.master, c.agents[a].cursor, a));
            && c'.master == c.master && a in c'.agents
            && Level(c.master, c'.agents[a]) && c.master.store == Replay(canon, c.master.log)
  {
    hide *;
    var c := Exec(canon, Init(ids), steps);
    var m, agent := c.master, c.agents[a];
    AllSerialAgree(canon, ids, steps);
    QuietIsRight(canon, c, a);
    EveryRunIsBasic(canon, ids, steps);
    BasicParts(canon, c);
    LevelsOne(canon, m, agent);
    SameCatchUp(canon, m, agent, a);
    CatchUpIsOfAgent(canon, m, agent.cursor, a);
    ExecIsAgentExec(canon, c, a, CatchUp(canon, m, agent.cursor, a));
  }

  /** The agent's number does not matter. */
  lemma SameCatchUp(canon: Canon, m: Master, agent: Agent, a: AgentId)
    requires MasterBasic(canon, m) && m.store == Replay(canon, m.log) && Right(canon, m, agent)
    ensures Level(m, CaughtUp(canon, m, agent)) ==>
              Level(m, AgentExec(canon, m, agent, CatchUp(canon, m, agent.cursor, a)))
  {
    ReplayLoads(canon, m, agent.cursor);
    hide AgentExec, CatchUp, StoreAfter, Backlog, MasterBasic, Replay, RightAt, Loadable, CaughtUp;
    CatchUpIs(canon, m, agent, a);
    CaughtUpIs(canon, m, agent);
  }

  lemma {:induction false} ReadsOfAgent(a: AgentId, n: nat)
    ensures StepsOf(a, Reads(a, n))
  {
    if n > 0 {
      ReadsOfAgent(a, n - 1);
    }
  }

  lemma {:induction false} DeliveriesOfAgent(a: AgentId, n: nat)
    ensures StepsOf(a, Deliveries(a, n))
  {
    if n > 0 {
      DeliveriesOfAgent(a, n - 1);
    }
  }

  lemma CatchUpIsOfAgent(canon: Canon, m: Master, cursor: nat, a: AgentId)
    ensures StepsOf(a, CatchUp(canon, m, cursor, a))
  {
    ReadsOfAgent(a, |m.wal|);
    DeliveriesOfAgent(a, |Backlog(canon, m, cursor)|);
    hide Reads, Deliveries, Backlog;
  }
}
