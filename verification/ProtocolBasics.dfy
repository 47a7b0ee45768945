/** What every run of the protocol keeps, however publishers and broadcasts interleave and whatever
    fails. */
module ProtocolBasics {
  import opened Events
  import opened WalLog
  import opened ChangeStores
  import opened Following
  import opened Segments
  import opened FileWals
  import opened Protocol

  function KeyAt(log: seq<Pub>, version: nat): Key
    requires 0 < version <= |log|
  {
    log[version - 1].key
  }

  /** Version w is the last of its raw key among the first `snap` versions. */
  ghost predicate LastRaw(log: seq<Pub>, snap: nat, w: nat) {
    && 0 < w <= snap <= |log|
    && forall u :: w < u <= snap ==> KeyAt(log, u) != KeyAt(log, w)
  }

  /** The log file holds the published keys at their versions, and on top is exactly what is the last
      of its raw key and not torn. */
  ghost predicate WalFits(log: seq<Pub>, wal: seq<Item>, torn: set<nat>) {
    && |wal| == |log|
    && (forall v :: v in torn ==> 0 < v <= |log|)
    && forall i :: 0 <= i < |wal| ==>
         && wal[i].index == i + 1
         && wal[i].key == KeyAt(log, i + 1)
         && (wal[i].status == OnTop <==> LastRaw(log, |log|, i + 1) && i + 1 !in torn)
  }

  ghost predicate PutBasic(canon: Canon, m: Master, put: Put) {
    Accepted(put.pub) && canon(put.pub.key) in m.store && put.offset <= |put.pub.bin|
  }

  ghost predicate MasterBasic(canon: Canon, m: Master) {
    && |m.log| < MAX_INDEX
    && WalFits(m.log, m.wal, m.torn)
    && (forall i :: 0 <= i < |m.log| ==> Accepted(m.log[i]) && canon(m.log[i].key) in m.store)
    && (forall i :: 0 <= i < |m.inflight| ==> PutBasic(canon, m, m.inflight[i]))
    && (forall i :: 0 <= i < |m.pending| ==> 0 < m.pending[i] <= |m.log|)
  }

  /** A message names a version of the log and carries that version's key; a NORMAL one carries its
      bytes as well. */
  ghost predicate MessageBasic(log: seq<Pub>, snap: nat, e: Envelope) {
    && 0 < e.version <= |log|
    && match e.tier
       case Recover => e.version <= snap && !e.kind.Unspecified? && e.hostname != ""
                 && KeyOf(e) == KeyAt(log, e.version)
       case Normal => e == NormalOf(log, e.version)
       case OtherTier => false
  }

  ghost predicate RecoverFirst(all: seq<Envelope>) {
    forall i, j :: 0 <= i < j < |all| && all[j].tier.Recover? ==>
              all[i].tier.Recover? && all[i].version < all[j].version
  }

  ghost predicate Holds(all: seq<Envelope>, version: nat) {
    exists i :: 0 <= i < |all| && all[i].tier.Recover? && all[i].version == version
  }

  /** A version past `from` that was on top when the log file was opened. */
  ghost predicate WasOnTop(log: seq<Pub>, snap: nat, lost: set<nat>, from: nat, w: nat) {
    from < w && LastRaw(log, snap, w) && w !in lost
  }

  /** Every version past `from` that was on top is still in the stream. */
  ghost predicate Covered(log: seq<Pub>, snap: nat, lost: set<nat>, from: nat, all: seq<Envelope>) {
    forall w :: WasOnTop(log, snap, lost, from, w) ==> Holds(all, w)
  }

  ghost predicate StreamBasic(log: seq<Pub>, snap: nat, lost: set<nat>, from: nat, all: seq<Envelope>) {
    && snap <= |log|
    && (forall i :: 0 <= i < |all| ==> MessageBasic(log, snap, all[i]))
    && RecoverFirst(all)
    && Covered(log, snap, lost, from, all)
  }

  ghost predicate NoRecover(all: seq<Envelope>) {
    forall i :: 0 <= i < |all| ==> !all[i].tier.Recover?
  }

  ghost predicate AllRecover(all: seq<Envelope>) {
    forall i :: 0 <= i < |all| ==> all[i].tier.Recover?
  }

  ghost predicate Unread(left: seq<Item>, w: nat) {
    exists i :: 0 <= i < |left| && left[i].status == OnTop && left[i].index == w
  }

  ghost predicate LeftBasic(log: seq<Pub>, snap: nat, left: seq<Item>) {
    && (forall i :: 0 <= i < |left| ==> 0 < left[i].index <= snap <= |log| && left[i].key == KeyAt(log, left[i].index))
    && Increasing(left)
  }

  /** In the middle of reading a backlog: what was read precedes what is left, and every version past
      `from` that was on top is in one of them. */
  ghost predicate ReadBasic(log: seq<Pub>, snap: nat, lost: set<nat>, from: nat, left: seq<Item>,
                            backlog: seq<Envelope>) {
    && from <= snap <= |log|
    && (forall i :: 0 <= i < |backlog| ==> MessageBasic(log, snap, backlog[i]) && backlog[i].tier.Recover?)
    && RecoverFirst(backlog)
    && LeftBasic(log, snap, left)
    && (forall i, j :: 0 <= i < |backlog| && 0 <= j < |left| ==> backlog[i].version < left[j].index)
    && (forall w :: WasOnTop(log, snap, lost, from, w) ==> Holds(backlog, w) || Unread(left, w))
  }

  /** The follower loop's `current`. */
  function Current(agent: Agent): nat {
    if agent.session.Streaming? && agent.session.saving.Some? then agent.session.saving.value else agent.cursor
  }

  /** The errors a session can end in: a gap, and a change read while its object was still empty. */
  const POSSIBLE: set<StreamError> := {VersionGap, NotApplied(BinRequired)}

  ghost predicate AgentBasic(log: seq<Pub>, torn: set<nat>, agent: Agent) {
    && agent.cursor <= Current(agent) <= |log|
    && agent.failures <= POSSIBLE
    && match agent.session
       case Down => true
       case Requested => true
       case Reading(snap, lost, left, backlog) =>
         lost <= torn && ReadBasic(log, snap, lost, agent.cursor, left, backlog)
       case Streaming(snap, lost, wire, queue, _, _, _, recovering, saving, _, received) =>
         && lost <= torn
         && StreamBasic(log, snap, lost, Current(agent), wire + queue)
         && (!recovering ==> NoRecover(wire + queue))
         && (saving.Some? ==> agent.cursor < saving.value)
         && (received == 0 ==> Current(agent) <= snap)
  }

  ghost predicate Basic(canon: Canon, c: Cluster) {
    && MasterBasic(canon, c.master)
    && forall a :: a in c.agents ==> AgentBasic(c.master.log, c.master.torn, c.agents[a])
  }

  // ---------------------------------------------------------------------------------------------
  // The log file

  lemma LastRawGrows(log: seq<Pub>, p: Pub, w: nat)
    requires 0 < w <= |log|
    ensures LastRaw(log + [p], |log| + 1, w) <==> LastRaw(log, |log|, w) && KeyAt(log, w) != p.key
  {
    var grown := log + [p];
    assert forall u :: 0 < u <= |log| ==> KeyAt(grown, u) == KeyAt(log, u);
    assert KeyAt(grown, |log| + 1) == p.key;
  }

  lemma LastRawSame(log: seq<Pub>, p: Pub, snap: nat, w: nat)
    requires snap <= |log|
    ensures LastRaw(log + [p], snap, w) <==> LastRaw(log, snap, w)
  {
    assert forall u :: 0 < u <= |log| ==> KeyAt(log + [p], u) == KeyAt(log, u);
  }

  lemma OnTopUnique(log: seq<Pub>, wal: seq<Item>, torn: set<nat>, i: nat, j: nat)
    requires WalFits(log, wal, torn) && i < |wal| && j < |wal|
    requires wal[i].status == OnTop && wal[j].status == OnTop && wal[i].key == wal[j].key
    ensures i == j
  {
    assert LastRaw(log, |log|, i + 1) && LastRaw(log, |log|, j + 1);
  }

  lemma AppendKeepsWal(log: seq<Pub>, wal: seq<Item>, torn: set<nat>, p: Pub)
    requires WalFits(log, wal, torn)
    ensures WalFits(log + [p], Appended(wal, |log| + 1, p.key), torn)
  {
    var q := FindOnTop(wal, p.key);
    var grown, wal' := log + [p], Appended(wal, |log| + 1, p.key);
    hide FindOnTop, LastRaw, KeyAt;
    LastIsLast(grown);
    forall i | 0 <= i < |wal|
      ensures wal'[i].index == i + 1 && wal'[i].key == KeyAt(grown, i + 1)
      ensures wal'[i].status == OnTop <==> LastRaw(grown, |grown|, i + 1) && i + 1 !in torn
    {
      LastRawGrows(log, p, i + 1);
      SameKey(log, p, i + 1);
      if Matches(wal[i], p.key) {
        assert q >= 0;
        OnTopUnique(log, wal, torn, i, q);
      }
    }
    SameKey(log, p, |log| + 1);
  }

  lemma SameKey(log: seq<Pub>, p: Pub, w: nat)
    requires 0 < w <= |log| + 1
    ensures KeyAt(log + [p], w) == if w <= |log| then KeyAt(log, w) else p.key
  {
  }

  lemma LastIsLast(log: seq<Pub>)
    ensures log != [] ==> LastRaw(log, |log|, |log|)
  {
  }

  lemma TearKeepsWal(log: seq<Pub>, wal: seq<Item>, torn: set<nat>, p: nat)
    requires WalFits(log, wal, torn) && p < |wal|
    ensures WalFits(log, Mark(wal, p), torn + {wal[p].index})
  {
    hide LastRaw, KeyAt;
  }

  /** The protocol's failed appends are those of the log directory: whatever files cannot be written,
      the log file is left as it was or torn, and it can be torn exactly when Tears says so. */
  lemma FailedAppends(m: Master, put: Put)
    requires WalFits(m.log, m.wal, m.torn) && Complete(put)
    ensures var key, p := put.pub.key, FindOnTop(m.wal, put.pub.key);
            && (forall broken :: !Writable(m.wal, key, |m.log| + 1, broken) ==>
                  LeftBy(m.wal, key, broken) == m.wal
                            || (Tears(m, put) && LeftBy(m.wal, key, broken) == Mark(m.wal, p)))
            && (Tears(m, put) ==>
                  exists broken :: !Writable(m.wal, key, |m.log| + 1, broken)
                                   && LeftBy(m.wal, key, broken) == Mark(m.wal, p) != m.wal)
  {
    var key, p := put.pub.key, FindOnTop(m.wal, put.pub.key);
    hide FindOnTop, SegmentNumber;
    if Tears(m, put) {
      var broken := {SegmentNumber(|m.log| + 1)};
      assert Mark(m.wal, p)[p].status != m.wal[p].status;
      assert !Writable(m.wal, key, |m.log| + 1, broken) && LeftBy(m.wal, key, broken) == Mark(m.wal, p);
    }
  }

  // ---------------------------------------------------------------------------------------------
  // The master's steps

  lemma WrittenStore(canon: Canon, m: Master, i: nat, n: nat)
    requires i < |m.inflight| && PutBasic(canon, m, m.inflight[i])
    ensures var m' := Written(canon, m, i, n);
            && m' == m.(store := m'.store, inflight := m'.inflight) && m'.store.Keys == m.store.Keys
            && |m'.inflight| == |m.inflight|
            && (forall j :: 0 <= j < |m.inflight| && j != i ==> m'.inflight[j] == m.inflight[j])
            && m'.inflight[i].pub == m.inflight[i].pub && m'.inflight[i].offset <= |m.inflight[i].pub.bin|
  {
    hide WriteAt;
  }

  lemma MasterKeepsBasic(canon: Canon, m: Master, step: Step)
    requires MasterBasic(canon, m) && !OfAgent(step)
    ensures MasterBasic(canon, NextMaster(canon, m, step))
    ensures m.torn <= NextMaster(canon, m, step).torn
  {
    hide WalFits, FindOnTop, Written, Appended, Mark;
    match step
    case Append(i) =>
      if i < |m.inflight| {
        AppendKeepsWal(m.log, m.wal, m.torn, m.inflight[i].pub);
      }
    case Fail(i, tears) =>
      if i < |m.inflight| && Tears(m, m.inflight[i]) {
        TearKeepsWal(m.log, m.wal, m.torn, FindOnTop(m.wal, m.inflight[i].pub.key));
      }
    case Write(i, n) =>
      if i < |m.inflight| {
        WrittenStore(canon, m, i, n);
        WrittenKeepsBasic(canon, m, Written(canon, m, i, n), i);
      }
    case _ =>
  }

  lemma WrittenKeepsBasic(canon: Canon, m: Master, m': Master, i: nat)
    requires MasterBasic(canon, m) && i < |m.inflight|
    requires m' == m.(store := m'.store, inflight := m'.inflight) && m'.store.Keys == m.store.Keys
    requires |m'.inflight| == |m.inflight|
    requires forall j :: 0 <= j < |m.inflight| && j != i ==> m'.inflight[j] == m.inflight[j]
    requires m'.inflight[i].pub == m.inflight[i].pub && m'.inflight[i].offset <= |m.inflight[i].pub.bin|
    ensures MasterBasic(canon, m')
  {
    hide WalFits;
    assert forall path :: path in m.store <==> path in m'.store.Keys;
    assert forall j :: 0 <= j < |m.inflight| ==> PutBasic(canon, m, m.inflight[j]);
  }

  lemma GrowKeepsMessage(log: seq<Pub>, p: Pub, snap: nat, e: Envelope)
    requires MessageBasic(log, snap, e)
    ensures MessageBasic(log + [p], snap, e)
  {
  }

  lemma GrowKeepsStream(log: seq<Pub>, p: Pub, snap: nat, lost: set<nat>, from: nat, all: seq<Envelope>)
    requires StreamBasic(log, snap, lost, from, all)
    ensures StreamBasic(log + [p], snap, lost, from, all)
  {
    hide MessageBasic, LastRaw;
    forall i | 0 <= i < |all| ensures MessageBasic(log + [p], snap, all[i]) {
      GrowKeepsMessage(log, p, snap, all[i]);
    }
    forall w | WasOnTop(log + [p], snap, lost, from, w) ensures Holds(all, w) {
      LastRawSame(log, p, snap, w);
      assert WasOnTop(log, snap, lost, from, w);
    }
  }

  lemma GrowKeepsReading(log: seq<Pub>, p: Pub, snap: nat, lost: set<nat>, from: nat, left: seq<Item>,
                         backlog: seq<Envelope>)
    requires ReadBasic(log, snap, lost, from, left, backlog)
    ensures ReadBasic(log + [p], snap, lost, from, left, backlog)
  {
    hide MessageBasic, LastRaw, KeyAt;
    forall i | 0 <= i < |backlog| ensures MessageBasic(log + [p], snap, backlog[i]) {
      GrowKeepsMessage(log, p, snap, backlog[i]);
    }
    forall i | 0 <= i < |left| ensures left[i].key == KeyAt(log + [p], left[i].index) {
      SameKey(log, p, left[i].index);
    }
    forall w | WasOnTop(log + [p], snap, lost, from, w) ensures Holds(backlog, w) || Unread(left, w) {
      LastRawSame(log, p, snap, w);
      assert WasOnTop(log, snap, lost, from, w);
    }
  }

  lemma GrowKeepsAgent(log: seq<Pub>, torn: set<nat>, p: Pub, agent: Agent)
    requires AgentBasic(log, torn, agent)
    ensures AgentBasic(log + [p], torn, agent)
  {
    hide StreamBasic, ReadBasic, NoRecover;
    match agent.session
    case Reading(snap, lost, left, backlog) => GrowKeepsReading(log, p, snap, lost, agent.cursor, left, backlog);
    case Streaming(snap, lost, wire, queue, _, _, _, _, _, _, _) =>
      GrowKeepsStream(log, p, snap, lost, Current(agent), wire + queue);
    case _ =>
  }

  lemma NormalKeepsStream(log: seq<Pub>, snap: nat, lost: set<nat>, from: nat, all: seq<Envelope>, version: nat)
    requires StreamBasic(log, snap, lost, from, all) && 0 < version <= |log|
    ensures StreamBasic(log, snap, lost, from, all + [NormalOf(log, version)])
    ensures NoRecover(all) ==> NoRecover(all + [NormalOf(log, version)])
  {
    hide LastRaw;
    var longer := all + [NormalOf(log, version)];
    forall w | WasOnTop(log, snap, lost, from, w) ensures Holds(longer, w) {
      var i :| 0 <= i < |all| && all[i].tier.Recover? && all[i].version == w;
      assert longer[i] == all[i];
    }
  }

  lemma ReachedKeepsAgent(m: Master, agent: Agent, step: Step)
    requires AgentBasic(m.log, m.torn, agent) && !OfAgent(step)
    ensures AgentBasic(m.log, m.torn, Reached(m, agent, step))
  {
    hide StreamBasic, NoRecover, ReadBasic;
    var s := agent.session;
    if step.Broadcast? && step.i < |m.pending| && 0 < m.pending[step.i] <= |m.log| && s.Streaming? {
      var msg := NormalOf(m.log, m.pending[step.i]);
      NormalKeepsStream(m.log, s.snap, s.lost, Current(agent), s.wire + s.queue, m.pending[step.i]);
      assert s.wire + (s.queue + [msg]) == s.wire + s.queue + [msg];
    }
  }

  // ---------------------------------------------------------------------------------------------
  // Reading the backlog

  /** A RECOVER message with the bytes the store holds now. */
  ghost predicate StoredNow(canon: Canon, m: Master, e: Envelope) {
    e.tier.Recover? && canon(KeyOf(e)) in m.store && e.bin == m.store[canon(KeyOf(e))]
  }

  /** Opening the log file: everything on top is still to be read. */
  lemma SnapshotKeeps(canon: Canon, m: Master, from: nat)
    requires MasterBasic(canon, m) && from <= |m.log|
    ensures ReadBasic(m.log, |m.log|, m.torn, from, m.wal, [])
  {
    hide LastRaw;
    forall w | WasOnTop(m.log, |m.log|, m.torn, from, w) ensures Unread(m.wal, w) {
      InRange(m.log, w);
      assert m.wal[w - 1].status == OnTop;
    }
  }

  lemma InRange(log: seq<Pub>, w: nat)
    requires LastRaw(log, |log|, w)
    ensures 0 < w <= |log|
  {
  }

  lemma EntryIs(canon: Canon, m: Master, snap: nat, item: Item, from: nat)
    requires MasterBasic(canon, m) && LeftBasic(m.log, snap, [item])
    ensures var entry := Entry(item, from, canon, m.store);
            && |entry| <= 1
            && (entry != [] <==> item.status == OnTop && item.index > from)
            && (entry != [] ==> MessageBasic(m.log, snap, entry[0]) && StoredNow(canon, m, entry[0])
                                && entry[0].version == item.index)
  {
    hide WalFits;
    assert [item][0] == item;
    assert m.log[item.index - 1].key == item.key;
  }

  /** Reading one more item. */
  lemma LoadKeeps(canon: Canon, m: Master, snap: nat, lost: set<nat>, from: nat, left: seq<Item>,
                  backlog: seq<Envelope>)
    requires MasterBasic(canon, m) && left != [] && ReadBasic(m.log, snap, lost, from, left, backlog)
    ensures ReadBasic(m.log, snap, lost, from, left[1..], backlog + Entry(left[0], from, canon, m.store))
  {
    hide MasterBasic, Entry, MessageBasic, WasOnTop, KeyAt;
    var entry := Entry(left[0], from, canon, m.store);
    var more, rest := backlog + entry, left[1..];
    LeftHead(m.log, snap, lost, from, left, backlog);
    EntryIs(canon, m, snap, left[0], from);
    assert forall j :: 0 <= j < |rest| ==> rest[j] == left[j + 1];
    assert entry != [] ==> more[|backlog|] == entry[0];
    forall w | WasOnTop(m.log, snap, lost, from, w) ensures Holds(more, w) || Unread(rest, w) {
      PastFrom(m.log, snap, lost, from, w);
      if Holds(backlog, w) {
        var i :| 0 <= i < |backlog| && backlog[i].tier.Recover? && backlog[i].version == w;
        assert more[i] == backlog[i];
      } else {
        var i :| 0 <= i < |left| && left[i].status == OnTop && left[i].index == w;
        assert i > 0 ==> rest[i - 1] == left[i];
      }
    }
  }

  lemma PastFrom(log: seq<Pub>, snap: nat, lost: set<nat>, from: nat, w: nat)
    requires WasOnTop(log, snap, lost, from, w)
    ensures w > from
  {
  }

  lemma ReadToTheEnd(log: seq<Pub>, snap: nat, lost: set<nat>, from: nat, backlog: seq<Envelope>)
    requires ReadBasic(log, snap, lost, from, [], backlog)
    ensures StreamBasic(log, snap, lost, from, backlog) && AllRecover(backlog)
  {
    hide MessageBasic, WasOnTop;
    forall w | WasOnTop(log, snap, lost, from, w) ensures Holds(backlog, w) {
      assert !Unread([], w);
    }
  }

  /** A backlog read at one moment is a valid stream with the bytes stored at that moment. */
  lemma BacklogKeeps(canon: Canon, m: Master, from: nat)
    requires MasterBasic(canon, m) && from <= |m.log|
    ensures StreamBasic(m.log, |m.log|, m.torn, from, Backlog(canon, m, from)) && AllRecover(Backlog(canon, m, from))
    ensures forall i :: 0 <= i < |Backlog(canon, m, from)| ==>
              StoredNow(canon, m, Backlog(canon, m, from)[i]) && Backlog(canon, m, from)[i].version > from
  {
    hide *;
    BacklogPrefix(canon, m, from, |m.wal|);
    assert m.wal[..|m.wal|] == m.wal && m.wal[|m.wal|..] == [];
    assert Backlog(canon, m, from) == SinceOf(m.wal, from, canon, m.store) by { BacklogIs(canon, m, from); }
    ReadToTheEnd(m.log, |m.log|, m.torn, from, Backlog(canon, m, from));
  }

  lemma BacklogIs(canon: Canon, m: Master, from: nat)
    ensures Backlog(canon, m, from) == SinceOf(m.wal, from, canon, m.store)
  {
  }

  lemma {:induction false} BacklogPrefix(canon: Canon, m: Master, from: nat, k: nat)
    requires MasterBasic(canon, m) && from <= |m.log| && k <= |m.wal|
    ensures var out := SinceOf(m.wal[..k], from, canon, m.store);
            && ReadBasic(m.log, |m.log|, m.torn, from, m.wal[k..], out)
            && forall i :: 0 <= i < |out| ==> StoredNow(canon, m, out[i]) && out[i].version > from
  {
    hide *;
    if k == 0 {
      SnapshotKeeps(canon, m, from);
      assert m.wal[..0] == [] && m.wal[0..] == m.wal;
      SinceOfNothing(canon, m.store, from);
    } else {
      BacklogPrefix(canon, m, from, k - 1);
      var left := m.wal[k - 1..];
      assert left[0] == m.wal[k - 1] && left[1..] == m.wal[k..];
      LoadKeeps(canon, m, |m.log|, m.torn, from, left, SinceOf(m.wal[..k - 1], from, canon, m.store));
      SinceOfNext(m.wal, from, canon, m.store, k - 1);
      LeftHead(m.log, |m.log|, m.torn, from, left, SinceOf(m.wal[..k - 1], from, canon, m.store));
      EntryIs(canon, m, |m.log|, left[0], from);
    }
  }

  lemma LeftHead(log: seq<Pub>, snap: nat, lost: set<nat>, from: nat, left: seq<Item>, backlog: seq<Envelope>)
    requires ReadBasic(log, snap, lost, from, left, backlog) && left != []
    ensures LeftBasic(log, snap, [left[0]])
  {
  }

  lemma SinceOfNothing(canon: Canon, data: Data, from: nat)
    ensures SinceOf([], from, canon, data) == []
  {
  }

  lemma SinceOfNext(wal: seq<Item>, from: nat, canon: Canon, data: Data, k: nat)
    requires k < |wal|
    ensures SinceOf(wal[..k + 1], from, canon, data)
         == SinceOf(wal[..k], from, canon, data) + Entry(wal[k], from, canon, data)
  {
    assert wal[..k + 1][..k] == wal[..k];
  }

  /** A version that is still the last of its raw key is missing from the backlog of a follower below
      it exactly when it is torn: an append of its key marked it, got no further, and the key was
      not appended since. */
  lemma MissingIffTorn(canon: Canon, m: Master, from: nat, w: nat)
    requires MasterBasic(canon, m) && from < w && LastRaw(m.log, |m.log|, w)
    ensures !Holds(Backlog(canon, m, from), w) <==> w in m.torn
  {
    InRange(m.log, w);
    BacklogKeeps(canon, m, from);
    if Holds(Backlog(canon, m, from), w) {
      HeldIsOnTop(canon, m, from, w);
      WalParts(canon, m);
    } else {
      NotHeld(m.log, |m.log|, m.torn, from, Backlog(canon, m, from), w);
    }
  }

  lemma WalParts(canon: Canon, m: Master)
    requires MasterBasic(canon, m)
    ensures WalFits(m.log, m.wal, m.torn)
  {
  }

  lemma NotHeld(log: seq<Pub>, snap: nat, lost: set<nat>, from: nat, all: seq<Envelope>, w: nat)
    requires StreamBasic(log, snap, lost, from, all) && !Holds(all, w) && LastRaw(log, snap, w) && from < w
    ensures w in lost
  {
    hide LastRaw, Holds;
    assert !WasOnTop(log, snap, lost, from, w);
  }

  lemma HeldIsOnTop(canon: Canon, m: Master, from: nat, w: nat)
    requires MasterBasic(canon, m) && Holds(Backlog(canon, m, from), w) && 0 < w <= |m.log|
    ensures m.wal[w - 1].status == OnTop
  {
    WalParts(canon, m);
    var out := Backlog(canon, m, from);
    assert Increasing(m.wal);
    SinceOfShape(m.wal, from, canon, m.store);
    hide SinceOf, LastRaw;
    var i :| 0 <= i < |out| && out[i].tier.Recover? && out[i].version == w;
    assert FromLogItem(m.wal, out[i], canon, m.store);
    var j :| 0 <= j < |m.wal| && FromItem(m.wal[j], out[i], canon, m.store);
  }

  // ---------------------------------------------------------------------------------------------
  // The agent's steps

  lemma TailKeepsStream(log: seq<Pub>, snap: nat, lost: set<nat>, from: nat, to: nat, all: seq<Envelope>)
    requires StreamBasic(log, snap, lost, from, all) && all != []
    requires all[0].tier.Recover? ==> all[0].version <= to
    requires from <= to
    ensures StreamBasic(log, snap, lost, to, all[1..])
    ensures NoRecover(all) ==> NoRecover(all[1..])
    ensures !all[0].tier.Recover? ==> NoRecover(all[1..])
  {
    hide LastRaw, MessageBasic;
    var rest := all[1..];
    forall w | WasOnTop(log, snap, lost, to, w) ensures Holds(rest, w) {
      assert WasOnTop(log, snap, lost, from, w);
      var i :| 0 <= i < |all| && all[i].tier.Recover? && all[i].version == w;
      assert rest[i - 1] == all[i];
    }
  }

  /** The first message of a stream ends a session only by a gap, or by a RECOVER message whose bytes
      were read while the object was empty. */
  lemma HeadOutcome(log: seq<Pub>, snap: nat, lost: set<nat>, from: nat, recovering: bool, all: seq<Envelope>)
    requires StreamBasic(log, snap, lost, from, all) && all != [] && (!recovering ==> NoRecover(all))
    requires forall i :: 0 <= i < |log| ==> Accepted(log[i])
    ensures Decide(from, recovering, all[0]).Stop? ==> Decide(from, recovering, all[0]).error == VersionGap
    ensures Decide(from, recovering, all[0]).Apply? ==> from < all[0].version <= |log|
    ensures ApplyError(all[0]) == if all[0].bin == [] then Some(BinRequired) else None
    ensures all[0].bin == [] ==> all[0].tier.Recover?
    ensures all[0].tier.Recover? ==> all[0].version <= snap
  {
    assert MessageBasic(log, snap, all[0]);
  }

  lemma ReceivedKeepsAgent(canon: Canon, m: Master, agent: Agent)
    requires MasterBasic(canon, m) && AgentBasic(m.log, m.torn, agent)
    requires agent.session.Streaming? && agent.session.wire != [] && agent.session.saving.None?
    ensures AgentBasic(m.log, m.torn, Received(canon, agent))
  {
    var s := agent.session;
    var all, change := s.wire + s.queue, s.wire[0];
    assert all[0] == change && all[1..] == s.wire[1..] + s.queue;
    HeadOutcome(m.log, s.snap, s.lost, agent.cursor, s.recovering, all);
    hide StreamBasic, NoRecover, MasterBasic, ApplyError;
    match Decide(agent.cursor, s.recovering, change)
    case Stop(_) =>
    case Skip => TailKeepsStream(m.log, s.snap, s.lost, agent.cursor, agent.cursor, all);
    case Apply => TailKeepsStream(m.log, s.snap, s.lost, agent.cursor, change.version, all);
  }

  lemma AgentStepKeepsBasic(canon: Canon, m: Master, agent: Agent, step: Step)
    requires MasterBasic(canon, m) && AgentBasic(m.log, m.torn, agent) && OfAgent(step)
    ensures AgentBasic(m.log, m.torn, NextAgent(canon, m, agent, step))
  {
    hide StreamBasic, MasterBasic, NoRecover, ReadBasic, Received, Entry, Decide, ApplyError;
    var s := agent.session;
    match step
    case Snapshot(_) => SnapshotKeeps(canon, m, agent.cursor);
    case Load(_) =>
      if s.Reading? && s.left != [] {
        LoadKeeps(canon, m, s.snap, s.lost, agent.cursor, s.left, s.backlog);
      }
    case Register(_) =>
      if s.Reading? && s.left == [] {
        ReadToTheEnd(m.log, s.snap, s.lost, agent.cursor, s.backlog);
        assert [] + s.backlog == s.backlog;
        ReadFrom(m.log, s.snap, s.lost, agent.cursor, s.left, s.backlog);
      }
    case Send(_) =>
      if s.Streaming? && s.queue != [] {
        assert (s.wire + [s.queue[0]]) + s.queue[1..] == s.wire + s.queue;
      }
    case Receive(_) =>
      if s.Streaming? && s.wire != [] && s.saving.None? {
        ReceivedKeepsAgent(canon, m, agent);
      }
    case _ =>
  }

  lemma ReadFrom(log: seq<Pub>, snap: nat, lost: set<nat>, from: nat, left: seq<Item>, backlog: seq<Envelope>)
    requires ReadBasic(log, snap, lost, from, left, backlog)
    ensures from <= snap
  {
  }

  // ---------------------------------------------------------------------------------------------
  // Every run

  lemma StepKeepsBasic(canon: Canon, c: Cluster, step: Step)
    requires Basic(canon, c)
    ensures Basic(canon, Next(canon, c, step))
  {
    hide MasterBasic, AgentBasic, NextMaster, NextAgent, Reached;
    if OfAgent(step) {
      if step.a in c.agents {
        AgentStepKeepsBasic(canon, c.master, c.agents[step.a], step);
      }
    } else {
      var m' := NextMaster(canon, c.master, step);
      MasterKeepsBasic(canon, c.master, step);
      forall a | a in c.agents ensures AgentBasic(m'.log, m'.torn, Reached(c.master, c.agents[a], step)) {
        ReachedKeepsAgent(c.master, c.agents[a], step);
        MasterStepKeepsAgent(canon, c.master, Reached(c.master, c.agents[a], step), step);
      }
    }
  }

  lemma MasterStepKeepsAgent(canon: Canon, m: Master, agent: Agent, step: Step)
    requires MasterBasic(canon, m) && AgentBasic(m.log, m.torn, agent) && !OfAgent(step)
    ensures AgentBasic(NextMaster(canon, m, step).log, NextMaster(canon, m, step).torn, agent)
  {
    MasterKeepsBasic(canon, m, step);
    hide AgentBasic, MasterBasic, FindOnTop, Mark, Appended, WriteAt;
    if step.Append? && step.i < |m.inflight| && Complete(m.inflight[step.i]) && |m.log| + 1 < MAX_INDEX {
      GrowKeepsAgent(m.log, m.torn, m.inflight[step.i].pub, agent);
    } else {
      assert NextMaster(canon, m, step).log == m.log;
      MoreTorn(m.log, m.torn, NextMaster(canon, m, step).torn, agent);
    }
  }

  lemma MoreTorn(log: seq<Pub>, torn: set<nat>, more: set<nat>, agent: Agent)
    requires AgentBasic(log, torn, agent) && torn <= more
    ensures AgentBasic(log, more, agent)
  {
    hide StreamBasic, ReadBasic, NoRecover;
  }

  /** Whatever publishers, broadcasts, sessions and restarts do, and however appends and writes fail:
      a stream names only versions of the log, RECOVER before NORMAL; what was on top when the log
      file was opened and is past the cursor is still on its way; and a session fails only by a
      version gap or a change that was read while its object was empty. */
  lemma {:induction false} EveryRunIsBasic(canon: Canon, ids: set<AgentId>, steps: seq<Step>)
    ensures Basic(canon, Exec(canon, Init(ids), steps))
  {
    if steps != [] {
      EveryRunIsBasic(canon, ids, steps[..|steps| - 1]);
      hide Basic, Next;
      StepKeepsBasic(canon, Exec(canon, Init(ids), steps[..|steps| - 1]), steps[|steps| - 1]);
    }
  }
}
