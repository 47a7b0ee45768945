/** Agreement: what an agent holds at or below its cursor is what the log says, path by path. */
module ProtocolAgreement {
  import opened Events
  import opened WalLog
  import opened ChangeStores
  import opened Following
  import opened Protocol
  import opened ProtocolBasics

  /** The newest version whose raw key is filed under `path`, or 0. */
  function Newest(canon: Canon, log: seq<Pub>, path: StorePath): (n: nat)
    ensures n <= |log|
    ensures n > 0 ==> canon(log[n - 1].key) == path
  {
    if log == [] then 0
    else if canon(log[|log| - 1].key) == path then |log|
    else Newest(canon, log[..|log| - 1], path)
  }

  predicate NewestIs(canon: Canon, log: seq<Pub>, path: StorePath, bytes: Bytes) {
    Newest(canon, log, path) > 0 && bytes == log[Newest(canon, log, path) - 1].bin
  }

  // ---------------------------------------------------------------------------------------------
  // Objects that are being written

  predicate OnPath(canon: Canon, put: Put, path: StorePath) {
    canon(put.pub.key) == path
  }

  /** A publish of the path is in flight. */
  ghost predicate Busy(canon: Canon, puts: seq<Put>, path: StorePath) {
    exists put :: put in puts && OnPath(canon, put, path)
  }

  ghost predicate SameBytes(canon: Canon, puts: seq<Put>, path: StorePath, bin: Bytes) {
    forall put :: put in puts && OnPath(canon, put, path) ==> put.pub.bin == bin
  }

  /** Some publish in flight has byte k of the path still to write. */
  ghost predicate Writes(canon: Canon, puts: seq<Put>, path: StorePath, k: nat) {
    exists put :: put in puts && OnPath(canon, put, path) && put.offset <= k
  }

  function ByteAt(bytes: Bytes, k: nat): Byte {
    if k < |bytes| then bytes[k] else 0
  }

  /** The object becomes `bin` when the publishes in flight have written the rest of theirs. */
  ghost predicate Mends(canon: Canon, puts: seq<Put>, path: StorePath, was: Bytes, bin: Bytes) {
    && |was| <= |bin|
    && (|was| < |bin| ==> Writes(canon, puts, path, |bin| - 1))
    && forall k :: 0 <= k < |bin| && !Writes(canon, puts, path, k) ==> ByteAt(was, k) == bin[k]
  }

  /** A path on its way: the publishes of it that are in flight all write the same bytes, and what is
      stored becomes those; with none in flight, what is stored is the newest version's bytes. */
  ghost predicate Settles(canon: Canon, m: Master, path: StorePath) {
    && (!Busy(canon, m.inflight, path) && path in m.store ==> NewestIs(canon, m.log, path, m.store[path]))
    && forall put :: put in m.inflight && OnPath(canon, put, path) ==>
         && SameBytes(canon, m.inflight, path, put.pub.bin)
         && Mends(canon, m.inflight, path, Stored(m, path), put.pub.bin)
  }

  /** The bytes are what a write of `bin` may show in the middle: each is bin's, or a zero. */
  ghost predicate Part(bytes: Bytes, bin: Bytes) {
    |bytes| <= |bin| && forall k :: 0 <= k < |bytes| ==> bytes[k] == bin[k] || bytes[k] == 0
  }

  ghost predicate PartOfPut(canon: Canon, puts: seq<Put>, path: StorePath, bytes: Bytes) {
    exists put :: put in puts && OnPath(canon, put, path) && Part(bytes, put.pub.bin)
  }

  ghost predicate MasterAgrees(canon: Canon, m: Master, path: StorePath) {
    && Settles(canon, m, path)
    && forall put :: put in m.inflight && OnPath(canon, put, path) ==> Part(Stored(m, path), put.pub.bin)
  }

  /** The bytes of the path's newest version, or part of those of a publish of it in flight. */
  ghost predicate Fresh(canon: Canon, m: Master, path: StorePath, bytes: Bytes) {
    NewestIs(canon, m.log, path, bytes) || PartOfPut(canon, m.inflight, path, bytes)
  }

  // ---------------------------------------------------------------------------------------------
  // Agents

  /** If the path's newest version is at most `upto` and not torn, the store holds fresh bytes. */
  ghost predicate Agrees(canon: Canon, m: Master, store: Data, upto: nat, path: StorePath) {
    0 < Newest(canon, m.log, path) <= upto && Newest(canon, m.log, path) !in m.torn ==>
      path in store && Fresh(canon, m, path, store[path])
  }

  ghost predicate MessageFresh(canon: Canon, m: Master, e: Envelope, path: StorePath) {
    e.tier.Recover? && canon(KeyOf(e)) == path && Newest(canon, m.log, path) == e.version ==>
              Fresh(canon, m, path, e.bin)
  }

  ghost predicate StreamFresh(canon: Canon, m: Master, all: seq<Envelope>, path: StorePath) {
    forall i :: 0 <= i < |all| ==> MessageFresh(canon, m, all[i], path)
  }

  /** What the store holds under the path was published. */
  ghost predicate Published(canon: Canon, m: Master, store: Data, path: StorePath) {
    path in store ==> Newest(canon, m.log, path) > 0
  }

  ghost predicate AgentAgrees(canon: Canon, m: Master, agent: Agent, path: StorePath) {
    && Agrees(canon, m, agent.store, Current(agent), path)
    && Published(canon, m, agent.store, path)
    && match agent.session
       case Reading(_, _, _, backlog) => StreamFresh(canon, m, backlog, path)
       case Streaming(_, _, wire, queue, _, _, _, _, _, _, _) => StreamFresh(canon, m, wire + queue, path)
       case _ => true
  }

  /** A newest version that is torn has a successor in flight. */
  ghost predicate MendedAt(canon: Canon, m: Master, path: StorePath) {
    Newest(canon, m.log, path) in m.torn ==> Busy(canon, m.inflight, path)
  }

  ghost predicate Agreeing(canon: Canon, c: Cluster, path: StorePath) {
    && Basic(canon, c)
    && MasterAgrees(canon, c.master, path)
    && MendedAt(canon, c.master, path)
    && forall a :: a in c.agents ==> AgentAgrees(canon, c.master, c.agents[a], path)
  }

  /** The discipline of one path: publishes of it that overlap write the same bytes; one gives up only
      where another of them remains and still sets the object right; and the master does not stop
      while one is in flight. */
  ghost predicate Serial(canon: Canon, m: Master, step: Step, path: StorePath) {
    match step
    case Create(p) => Accepted(p) && canon(p.key) == path ==> SameBytes(canon, m.inflight, path, p.bin)
    case Fail(i, _) =>
      i < |m.inflight| && OnPath(canon, m.inflight[i], path) ==>
        var left := m.(inflight := Without(m.inflight, i));
        Busy(canon, left.inflight, path) && Settles(canon, left, path)
    case MasterRestart => !Busy(canon, m.inflight, path)
    case _ => true
  }

  ghost predicate SerialRun(canon: Canon, c: Cluster, steps: seq<Step>, path: StorePath) {
    steps == [] ||
    (var front := steps[..|steps| - 1];
     SerialRun(canon, c, front, path) && Serial(canon, Exec(canon, c, front).master, steps[|steps| - 1], path))
  }

  // ---------------------------------------------------------------------------------------------
  // The newest version

  lemma NewestGrows(canon: Canon, log: seq<Pub>, p: Pub, path: StorePath)
    ensures Newest(canon, log + [p], path) == if canon(p.key) == path then |log| + 1 else Newest(canon, log, path)
  {
    assert (log + [p])[..|log|] == log;
  }

  lemma {:induction false} NewestLast(canon: Canon, log: seq<Pub>, path: StorePath, u: nat)
    requires 0 < u <= |log| && canon(KeyAt(log, u)) == path
    ensures Newest(canon, log, path) >= u
  {
    if u < |log| {
      assert KeyAt(log[..|log| - 1], u) == KeyAt(log, u);
      NewestLast(canon, log[..|log| - 1], path, u);
    }
  }

  lemma NewestIsLastRaw(canon: Canon, log: seq<Pub>, path: StorePath, snap: nat)
    requires 0 < Newest(canon, log, path) <= snap <= |log|
    ensures LastRaw(log, snap, Newest(canon, log, path))
  {
    var n := Newest(canon, log, path);
    forall u | n < u <= snap ensures KeyAt(log, u) != KeyAt(log, n) {
      if canon(KeyAt(log, u)) == path {
        NewestLast(canon, log, path, u);
      }
    }
  }

  lemma NewestOfMessage(canon: Canon, log: seq<Pub>, snap: nat, e: Envelope)
    requires MessageBasic(log, snap, e)
    ensures Newest(canon, log, canon(KeyOf(e))) >= e.version
  {
    NewestLast(canon, log, canon(KeyOf(e)), e.version);
  }

  // ---------------------------------------------------------------------------------------------
  // Steps that do not concern the path

  ghost predicate SamePuts(canon: Canon, a: seq<Put>, b: seq<Put>, path: StorePath) {
    forall put :: OnPath(canon, put, path) ==> (put in a <==> put in b)
  }

  /** The two masters look the same to the path. */
  ghost predicate SameAt(canon: Canon, m: Master, m': Master, path: StorePath) {
    && SamePuts(canon, m.inflight, m'.inflight, path)
    && (path in m.store <==> path in m'.store) && Stored(m, path) == Stored(m', path)
    && Newest(canon, m'.log, path) == Newest(canon, m.log, path)
    && (Newest(canon, m.log, path) > 0 ==>
          m'.log[Newest(canon, m'.log, path) - 1].bin == m.log[Newest(canon, m.log, path) - 1].bin)
  }

  lemma SamePutsSame(canon: Canon, a: seq<Put>, b: seq<Put>, path: StorePath)
    requires SamePuts(canon, a, b, path)
    ensures Busy(canon, a, path) <==> Busy(canon, b, path)
    ensures forall bin :: SameBytes(canon, a, path, bin) <==> SameBytes(canon, b, path, bin)
    ensures forall bytes :: PartOfPut(canon, a, path, bytes) <==> PartOfPut(canon, b, path, bytes)
    ensures forall was, bin :: Mends(canon, a, path, was, bin) <==> Mends(canon, b, path, was, bin)
  {
    hide Part, Mends;
    forall was, bin ensures Mends(canon, a, path, was, bin) <==> Mends(canon, b, path, was, bin) {
      SameWrites(canon, a, b, path);
      MendsSame(canon, a, b, path, was, bin);
    }
  }

  lemma SameWrites(canon: Canon, a: seq<Put>, b: seq<Put>, path: StorePath)
    requires SamePuts(canon, a, b, path)
    ensures forall k: nat :: Writes(canon, a, path, k) <==> Writes(canon, b, path, k)
  {
  }

  lemma MendsSame(canon: Canon, a: seq<Put>, b: seq<Put>, path: StorePath, was: Bytes, bin: Bytes)
    requires forall k: nat :: Writes(canon, a, path, k) <==> Writes(canon, b, path, k)
    ensures Mends(canon, a, path, was, bin) <==> Mends(canon, b, path, was, bin)
  {
    hide Writes;
  }

  lemma SameAtSettles(canon: Canon, m: Master, m': Master, path: StorePath)
    requires SameAt(canon, m, m', path)
    ensures Settles(canon, m, path) ==> Settles(canon, m', path)
    ensures MasterAgrees(canon, m, path) ==> MasterAgrees(canon, m', path)
  {
    SamePutsSame(canon, m.inflight, m'.inflight, path);
    hide Newest, Part, Busy, SameBytes, Mends, PartOfPut;
  }

  lemma SameAtFresh(canon: Canon, m: Master, m': Master, path: StorePath)
    requires SameAt(canon, m, m', path)
    ensures forall bytes :: Fresh(canon, m, path, bytes) <==> Fresh(canon, m', path, bytes)
  {
    SamePutsSame(canon, m.inflight, m'.inflight, path);
    hide Newest, PartOfPut;
  }

  lemma SameAtAgrees(canon: Canon, m: Master, m': Master, path: StorePath)
    requires SameAt(canon, m, m', path)
    ensures Settles(canon, m, path) <==> Settles(canon, m', path)
    ensures MasterAgrees(canon, m, path) <==> MasterAgrees(canon, m', path)
    ensures forall bytes :: Fresh(canon, m, path, bytes) <==> Fresh(canon, m', path, bytes)
  {
    SameAtSettles(canon, m, m', path);
    SameAtFresh(canon, m, m', path);
    assert SameAt(canon, m', m, path) by { hide Newest; }
    SameAtSettles(canon, m', m, path);
    hide *;
  }

  lemma WithoutMembers(s: seq<Put>, i: nat)
    requires i < |s|
    ensures forall put :: put in Without(s, i) ==> put in s
    ensures forall put :: put in s && put != s[i] ==> put in Without(s, i)
  {
    forall put | put in s && put != s[i] ensures put in Without(s, i) {
      var j :| 0 <= j < |s| && s[j] == put;
      assert Without(s, i)[if j < i then j else j - 1] == put;
    }
  }

  lemma UpdateMembers(s: seq<Put>, i: nat, put: Put)
    requires i < |s|
    ensures forall other :: other in s[i := put] ==> other in s || other == put
    ensures forall other :: other in s && other != s[i] ==> other in s[i := put]
    ensures put in s[i := put]
  {
    assert s[i := put][i] == put;
    forall other | other in s && other != s[i] ensures other in s[i := put] {
      var j :| 0 <= j < |s| && s[j] == other;
      assert s[i := put][j] == other;
    }
  }

  /** A step of the master on another path, or on none. */
  predicate Elsewhere(canon: Canon, m: Master, step: Step, path: StorePath) {
    match step
    case Create(p) => !Accepted(p) || canon(p.key) != path
    case Write(i, _) => i >= |m.inflight| || !OnPath(canon, m.inflight[i], path)
    case Append(i) => i >= |m.inflight| || !OnPath(canon, m.inflight[i], path)
    case Fail(i, _) => i >= |m.inflight| || !OnPath(canon, m.inflight[i], path)
    case MasterRestart => false
    case _ => true
  }

  lemma ElsewhereIsSame(canon: Canon, m: Master, step: Step, path: StorePath)
    requires Elsewhere(canon, m, step, path) && !OfAgent(step)
    ensures SameAt(canon, m, NextMaster(canon, m, step), path)
  {
    hide FindOnTop, Mark, Newest, Written, Logged;
    match step
    case Create(p) =>
      if Accepted(p) {
        assert forall put :: put in m.inflight + [Put(p, 0)] <==> put in m.inflight || put == Put(p, 0);
      }
    case Write(i, n) =>
      if i < |m.inflight| {
        WriteElsewhere(canon, m, i, n, path);
      }
    case Append(i) =>
      if i < |m.inflight| {
        AppendElsewhere(canon, m, i, path);
      }
    case Fail(i, _) =>
      if i < |m.inflight| {
        WithoutMembers(m.inflight, i);
      }
    case _ =>
  }

  lemma WriteElsewhere(canon: Canon, m: Master, i: nat, n: nat, path: StorePath)
    requires i < |m.inflight| && !OnPath(canon, m.inflight[i], path)
    ensures SameAt(canon, m, Written(canon, m, i, n), path)
  {
    hide WriteAt, Newest;
    UpdateMembers(m.inflight, i, Written(canon, m, i, n).inflight[i]);
  }

  lemma AppendElsewhere(canon: Canon, m: Master, i: nat, path: StorePath)
    requires i < |m.inflight| && !OnPath(canon, m.inflight[i], path)
    ensures SameAt(canon, m, Logged(m, i), path)
  {
    hide Appended, Newest, Without;
    WithoutMembers(m.inflight, i);
    NewestGrows(canon, m.log, m.inflight[i].pub, path);
  }

  // ---------------------------------------------------------------------------------------------
  // Steps on the path

  lemma Longer(was: Bytes, offset: nat, chunk: Bytes)
    requires chunk != []
    ensures |WriteAt(was, offset, chunk)| == if |was| < offset + |chunk| then offset + |chunk| else |was|
    ensures forall k: nat :: ByteAt(WriteAt(was, offset, chunk), k)
                          == if offset <= k < offset + |chunk| then chunk[k - offset] else ByteAt(was, k)
  {
  }

  /** What the i-th publish's next write does: nothing, or it brings its next bytes. */
  lemma WrittenIs(canon: Canon, m: Master, i: nat, n: nat)
    requires i < |m.inflight| && PutBasic(canon, m, m.inflight[i])
    ensures var m', put := Written(canon, m, i, n), m.inflight[i];
            var path, end := canon(put.pub.key), m'.inflight[i].offset;
            && put.offset <= end <= |put.pub.bin| && m'.inflight == m.inflight[i := put.(offset := end)]
            && m' == m.(store := m'.store, inflight := m'.inflight)
            && path in m'.store && m'.store[path] == WriteAt(m.store[path], put.offset, put.pub.bin[put.offset..end])
    ensures n >= |m.inflight[i].pub.bin| ==> Complete(Written(canon, m, i, n).inflight[i])
  {
    hide WriteAt;
    var put := m.inflight[i];
    var rest := put.pub.bin[put.offset..];
    var chunk := rest[..Least(n, |rest|)];
    assert chunk == put.pub.bin[put.offset..put.offset + |chunk|];
  }

  /** The publishes of the path before and after one of them moved from `put` to `moved`. */
  ghost predicate Moved(canon: Canon, puts: seq<Put>, after: seq<Put>, path: StorePath, put: Put, moved: Put) {
    && put in puts && OnPath(canon, put, path)
    && moved in after && moved.pub == put.pub && put.offset < moved.offset <= |put.pub.bin|
    && (forall other :: other in after ==> other in puts || other == moved)
    && (forall other :: other in puts && other != put ==> other in after)
  }

  lemma MovedWrites(canon: Canon, puts: seq<Put>, after: seq<Put>, path: StorePath, put: Put, moved: Put)
    requires Moved(canon, puts, after, path, put, moved)
    ensures forall bin :: SameBytes(canon, puts, path, bin) <==> SameBytes(canon, after, path, bin)
    ensures forall k :: Writes(canon, after, path, k) ==> Writes(canon, puts, path, k)
    ensures forall k: nat :: Writes(canon, puts, path, k) && !Writes(canon, after, path, k) ==>
              put.offset <= k < moved.offset
  {
    forall bin | SameBytes(canon, after, path, bin) ensures SameBytes(canon, puts, path, bin) {
      assert moved.pub.bin == bin;
    }
    forall k: nat | Writes(canon, puts, path, k) && !Writes(canon, after, path, k)
      ensures put.offset <= k < moved.offset
    {
      var other :| other in puts && OnPath(canon, other, path) && other.offset <= k;
      assert other == put;
    }
  }

  /** A write neither helps nor harms: the object mends after it exactly when it did before. */
  lemma MovedMends(canon: Canon, puts: seq<Put>, after: seq<Put>, path: StorePath, put: Put, moved: Put, was: Bytes)
    requires Moved(canon, puts, after, path, put, moved)
    ensures var bin := put.pub.bin;
            var now := WriteAt(was, put.offset, bin[put.offset..moved.offset]);
            && (Mends(canon, after, path, now, bin) <==> Mends(canon, puts, path, was, bin))
            && (Part(was, bin) ==> Part(now, bin))
  {
    var bin := put.pub.bin;
    var chunk := bin[put.offset..moved.offset];
    var now := WriteAt(was, put.offset, chunk);
    Longer(was, put.offset, chunk);
    MovedWrites(canon, puts, after, path, put, moved);
    hide WriteAt, SameBytes;
    assert Writes(canon, puts, path, |bin| - 1);
    assert moved.offset < |bin| ==> Writes(canon, after, path, |bin| - 1);
    hide Writes, Moved;
    forall k | 0 <= k < |bin| && !Writes(canon, puts, path, k) ensures ByteAt(now, k) == ByteAt(was, k) {
      NotYet(canon, puts, after, path, put, moved, k);
    }
    if Part(was, bin) {
      forall k | 0 <= k < |now| ensures now[k] == bin[k] || now[k] == 0 {
        assert now[k] == ByteAt(now, k);
        assert k < |was| ==> was[k] == ByteAt(was, k);
      }
    }
  }

  lemma NotYet(canon: Canon, puts: seq<Put>, after: seq<Put>, path: StorePath, put: Put, moved: Put, k: nat)
    requires Moved(canon, puts, after, path, put, moved) && !Writes(canon, puts, path, k)
    ensures k < put.offset
  {
  }

  lemma WriteIsMove(canon: Canon, m: Master, i: nat, n: nat)
    requires i < |m.inflight| && PutBasic(canon, m, m.inflight[i])
    ensures var m', put := Written(canon, m, i, n), m.inflight[i];
            var moved, path := m'.inflight[i], canon(put.pub.key);
            && (moved.offset == put.offset ==> m'.inflight == m.inflight && m'.store == m.store)
            && (moved.offset > put.offset ==> Moved(canon, m.inflight, m'.inflight, path, put, moved))
  {
    WrittenIs(canon, m, i, n);
    var m', put := Written(canon, m, i, n), m.inflight[i];
    UpdateMembers(m.inflight, i, m'.inflight[i]);
    hide Written;
    if m'.inflight[i].offset == put.offset {
      assert m.inflight[i := put] == m.inflight;
      SameStore(canon, m, i, n);
    }
  }

  lemma SameStore(canon: Canon, m: Master, i: nat, n: nat)
    requires i < |m.inflight| && PutBasic(canon, m, m.inflight[i])
    requires Written(canon, m, i, n).inflight[i].offset == m.inflight[i].offset
    ensures Written(canon, m, i, n).store == m.store
  {
  }

  /** With a publish of the path in flight. */
  lemma SettlesBusy(canon: Canon, m: Master, path: StorePath, put: Put)
    requires put in m.inflight && OnPath(canon, put, path)
    ensures Busy(canon, m.inflight, path)
    ensures Settles(canon, m, path) <==> SameBytes(canon, m.inflight, path, put.pub.bin)
                                         && Mends(canon, m.inflight, path, Stored(m, path), put.pub.bin)
    ensures SameBytes(canon, m.inflight, path, put.pub.bin) ==>
              (MasterAgrees(canon, m, path) <==> Settles(canon, m, path) && Part(Stored(m, path), put.pub.bin))
  {
    hide Mends, Newest, Part;
  }

  lemma WriteKeepsPath(canon: Canon, m: Master, i: nat, n: nat, path: StorePath)
    requires i < |m.inflight| && PutBasic(canon, m, m.inflight[i]) && OnPath(canon, m.inflight[i], path)
    ensures Settles(canon, Written(canon, m, i, n), path) <==> Settles(canon, m, path)
    ensures MasterAgrees(canon, m, path) ==> MasterAgrees(canon, Written(canon, m, i, n), path)
  {
    var m', put := Written(canon, m, i, n), m.inflight[i];
    WrittenIs(canon, m, i, n);
    WriteIsMove(canon, m, i, n);
    SettlesBusy(canon, m, path, put);
    hide Written, Newest, Mends, SameBytes, Part, WriteAt, Settles, MasterAgrees, Busy;
    if m'.inflight[i].offset > put.offset {
      SettlesBusy(canon, m', path, m'.inflight[i]);
      MovedWrites(canon, m.inflight, m'.inflight, path, put, m'.inflight[i]);
      MovedMends(canon, m.inflight, m'.inflight, path, put, m'.inflight[i], m.store[path]);
      hide Moved;
      if MasterAgrees(canon, m, path) {
        AgreesSettles(canon, m, path, put);
      }
    } else {
      assert SameAt(canon, m, m', path);
      SameAtAgrees(canon, m, m', path);
    }
  }

  lemma AgreesSettles(canon: Canon, m: Master, path: StorePath, put: Put)
    requires MasterAgrees(canon, m, path) && put in m.inflight && OnPath(canon, put, path)
    ensures Settles(canon, m, path) && SameBytes(canon, m.inflight, path, put.pub.bin)
    ensures Part(Stored(m, path), put.pub.bin)
  {
    hide Part, Mends;
  }

  lemma MovedBusy(canon: Canon, puts: seq<Put>, after: seq<Put>, path: StorePath, put: Put, moved: Put)
    requires Moved(canon, puts, after, path, put, moved)
    ensures Busy(canon, puts, path) && Busy(canon, after, path)
    ensures forall bytes :: PartOfPut(canon, puts, path, bytes) ==> PartOfPut(canon, after, path, bytes)
  {
    hide Part;
    forall bytes | PartOfPut(canon, puts, path, bytes) ensures PartOfPut(canon, after, path, bytes) {
      var other :| other in puts && OnPath(canon, other, path) && Part(bytes, other.pub.bin);
      assert other == put || other in after;
    }
  }

  /** A new publish of the path is safe exactly when those in flight write the same bytes. */
  lemma CreateIff(canon: Canon, m: Master, p: Pub)
    requires Accepted(p)
    ensures Settles(canon, Created(canon, m, p), canon(p.key)) <==> SameBytes(canon, m.inflight, canon(p.key), p.bin)
    ensures SameBytes(canon, m.inflight, canon(p.key), p.bin) ==>
              MasterAgrees(canon, Created(canon, m, p), canon(p.key))
  {
    var path, m' := canon(p.key), Created(canon, m, p);
    CreatedPuts(canon, m, p);
    SettlesBusy(canon, m', path, Put(p, 0));
    EmptyMends(canon, m'.inflight, path, p);
    hide Settles, MasterAgrees, SameBytes, Mends, Part, Busy;
  }

  lemma CreatedPuts(canon: Canon, m: Master, p: Pub)
    ensures var m', path := Created(canon, m, p), canon(p.key);
            && Put(p, 0) in m'.inflight && OnPath(canon, Put(p, 0), path) && Stored(m', path) == []
            && (SameBytes(canon, m'.inflight, path, p.bin) <==> SameBytes(canon, m.inflight, path, p.bin))
  {
    var m' := Created(canon, m, p);
    assert m'.inflight[|m.inflight|] == Put(p, 0);
    assert forall put :: put in m'.inflight <==> put in m.inflight || put == Put(p, 0);
  }

  lemma EmptyMends(canon: Canon, puts: seq<Put>, path: StorePath, p: Pub)
    requires Put(p, 0) in puts && canon(p.key) == path && p.bin != []
    ensures Mends(canon, puts, path, [], p.bin) && Part([], p.bin)
  {
    assert forall k: nat :: Writes(canon, puts, path, k) by {
      assert OnPath(canon, Put(p, 0), path);
    }
    hide Writes;
  }

  lemma CreateKeepsFresh(canon: Canon, m: Master, p: Pub, path: StorePath, bytes: Bytes)
    requires Fresh(canon, m, path, bytes)
    ensures Fresh(canon, Created(canon, m, p), path, bytes)
  {
    hide Newest, Part;
    if PartOfPut(canon, m.inflight, path, bytes) {
      var put :| put in m.inflight && OnPath(canon, put, path) && Part(bytes, put.pub.bin);
      assert put in m.inflight + [Put(p, 0)];
    }
  }

  /** Appending a completed publish changes nothing about whether its path settles. */
  lemma AppendIff(canon: Canon, m: Master, i: nat, path: StorePath)
    requires i < |m.inflight| && OnPath(canon, m.inflight[i], path) && Complete(m.inflight[i])
    requires PutBasic(canon, m, m.inflight[i]) && SameBytes(canon, m.inflight, path, m.inflight[i].pub.bin)
    ensures Settles(canon, Logged(m, i), path) <==> Settles(canon, m, path)
    ensures MasterAgrees(canon, m, path) ==> MasterAgrees(canon, Logged(m, i), path)
  {
    var m', put := Logged(m, i), m.inflight[i];
    WithoutMembers(m.inflight, i);
    LoggedNewest(canon, m, i, path);
    SettlesBusy(canon, m, path, put);
    CompleteWrites(canon, m.inflight, m'.inflight, path, put);
    hide Appended, FindOnTop, Newest, Writes, Without, Mends, Settles, MasterAgrees, Part;
    if other :| other in m'.inflight && OnPath(canon, other, path) {
      assert other.pub.bin == put.pub.bin;
      SettlesBusy(canon, m', path, other);
      StillSame(canon, m.inflight, m'.inflight, path, put.pub.bin);
      CompleteMends(canon, m.inflight, m'.inflight, path, Stored(m, path), put.pub.bin);
      if MasterAgrees(canon, m, path) {
        AgreesSettles(canon, m, path, put);
      }
    } else {
      NothingWrites(canon, m'.inflight, path);
      MendsNow(canon, m.inflight, path, m.store[path], put.pub.bin);
      SettlesIdle(canon, m', path);
    }
  }

  lemma LoggedNewest(canon: Canon, m: Master, i: nat, path: StorePath)
    requires i < |m.inflight| && OnPath(canon, m.inflight[i], path)
    ensures forall bytes :: NewestIs(canon, Logged(m, i).log, path, bytes) <==> bytes == m.inflight[i].pub.bin
  {
    hide Appended;
    NewestGrows(canon, m.log, m.inflight[i].pub, path);
    hide Newest;
  }

  lemma SettlesIdle(canon: Canon, m: Master, path: StorePath)
    requires !Busy(canon, m.inflight, path)
    ensures Settles(canon, m, path) <==> MasterAgrees(canon, m, path)
    ensures Settles(canon, m, path) <==> (path in m.store ==> NewestIs(canon, m.log, path, m.store[path]))
  {
    hide NewestIs, Part, Mends;
    assert forall put :: put in m.inflight ==> !OnPath(canon, put, path);
  }

  lemma StillSame(canon: Canon, puts: seq<Put>, after: seq<Put>, path: StorePath, bin: Bytes)
    requires SameBytes(canon, puts, path, bin) && forall put :: put in after ==> put in puts
    ensures SameBytes(canon, after, path, bin)
  {
  }

  lemma CompleteMends(canon: Canon, puts: seq<Put>, after: seq<Put>, path: StorePath, was: Bytes, bin: Bytes)
    requires forall k :: 0 <= k < |bin| ==> (Writes(canon, after, path, k) <==> Writes(canon, puts, path, k))
    requires bin != []
    ensures Mends(canon, after, path, was, bin) <==> Mends(canon, puts, path, was, bin)
  {
    hide Writes;
  }

  lemma NothingWrites(canon: Canon, puts: seq<Put>, path: StorePath)
    requires !Busy(canon, puts, path)
    ensures forall k :: !Writes(canon, puts, path, k)
  {
  }

  lemma CompleteWrites(canon: Canon, puts: seq<Put>, after: seq<Put>, path: StorePath, put: Put)
    requires put in puts && Complete(put) && (forall other :: other in after ==> other in puts)
    requires forall other :: other in puts && other != put ==> other in after
    ensures forall k :: 0 <= k < |put.pub.bin| ==> (Writes(canon, after, path, k) <==> Writes(canon, puts, path, k))
  {
    forall k | 0 <= k < |put.pub.bin| && Writes(canon, puts, path, k) ensures Writes(canon, after, path, k) {
      var other :| other in puts && OnPath(canon, other, path) && other.offset <= k;
      assert other in after;
    }
  }

  /** With nothing left to write, an object mends exactly when it is right. */
  lemma MendsNow(canon: Canon, puts: seq<Put>, path: StorePath, was: Bytes, bin: Bytes)
    requires bin != [] && forall k :: 0 <= k < |bin| ==> !Writes(canon, puts, path, k)
    ensures Mends(canon, puts, path, was, bin) <==> was == bin
  {
    hide Writes;
    if Mends(canon, puts, path, was, bin) {
      forall k | 0 <= k < |bin| ensures was[k] == bin[k] {
        assert ByteAt(was, k) == bin[k];
      }
    }
  }

  // ---------------------------------------------------------------------------------------------
  // The master's steps, seen by the master and by an agent

  lemma MasterKeepsAgreement(canon: Canon, m: Master, step: Step, path: StorePath)
    requires MasterBasic(canon, m) && MasterAgrees(canon, m, path) && !OfAgent(step) && Serial(canon, m, step, path)
    ensures MasterAgrees(canon, NextMaster(canon, m, step), path)
  {
    if Elsewhere(canon, m, step, path) {
      ElsewhereIsSame(canon, m, step, path);
      SameAtAgrees(canon, m, NextMaster(canon, m, step), path);
    } else {
      hide Settles, SameBytes, FindOnTop, Appended, Mark, WalFits, Written, Part;
      match step
      case Create(p) => CreateIff(canon, m, p);
      case Write(i, n) => WriteKeepsPath(canon, m, i, n, path);
      case Append(i) =>
        if Complete(m.inflight[i]) {
          SettledBytes(canon, m, i, path);
          AppendIff(canon, m, i, path);
        }
      case Fail(i, tears) => FailKeepsPath(canon, m, i, tears, path);
      case MasterRestart => RestartIsSame(canon, m, path);
      case _ =>
    }
  }

  lemma SettledBytes(canon: Canon, m: Master, i: nat, path: StorePath)
    requires Settles(canon, m, path) && i < |m.inflight| && OnPath(canon, m.inflight[i], path)
    ensures SameBytes(canon, m.inflight, path, m.inflight[i].pub.bin)
  {
  }

  lemma FailKeepsPath(canon: Canon, m: Master, i: nat, tears: bool, path: StorePath)
    requires MasterAgrees(canon, m, path) && i < |m.inflight|
    requires Settles(canon, m.(inflight := Without(m.inflight, i)), path)
    ensures MasterAgrees(canon, Failed(m, i, tears), path)
  {
    var left, m' := m.(inflight := Without(m.inflight, i)), Failed(m, i, tears);
    WithoutMembers(m.inflight, i);
    hide Settles, Part, FindOnTop, Mark, Newest, Without;
    assert SameAt(canon, left, m', path);
    SameAtAgrees(canon, left, m', path);
  }

  lemma RestartIsSame(canon: Canon, m: Master, path: StorePath)
    requires MasterAgrees(canon, m, path) && !Busy(canon, m.inflight, path)
    ensures MasterAgrees(canon, m.(inflight := [], pending := []), path)
  {
    var m' := m.(inflight := [], pending := []);
    hide Settles, Part, Newest;
    assert forall put :: put in m.inflight ==> !OnPath(canon, put, path);
    assert SameAt(canon, m, m', path);
    SameAtAgrees(canon, m, m', path);
  }

  /** Fresh bytes stay fresh, until a newer version is appended. */
  lemma StepKeepsFresh(canon: Canon, m: Master, step: Step, path: StorePath, bytes: Bytes)
    requires MasterBasic(canon, m) && MasterAgrees(canon, m, path) && !OfAgent(step) && Serial(canon, m, step, path)
    requires Fresh(canon, m, path, bytes)
    ensures Fresh(canon, NextMaster(canon, m, step), path, bytes)
            || Newest(canon, NextMaster(canon, m, step).log, path) == |m.log| + 1
  {
    if Elsewhere(canon, m, step, path) {
      ElsewhereIsSame(canon, m, step, path);
      SameAtAgrees(canon, m, NextMaster(canon, m, step), path);
    } else {
      hide Settles, SameBytes, FindOnTop, Appended, Mark, WalFits, Written, Fresh, Newest, Failed, Busy, Created;
      match step
      case Create(p) => CreateKeepsFresh(canon, m, p, path, bytes);
      case Write(i, n) => WriteKeepsFresh(canon, m, i, n, path, bytes);
      case Append(i) => AppendedNewest(canon, m, i, path);
      case Fail(i, tears) =>
        SettledBytes(canon, m, i, path);
        FailKeepsFresh(canon, m, i, tears, path, bytes);
      case MasterRestart => RestartKeepsFresh(canon, m, path, bytes);
      case _ =>
    }
  }

  lemma AppendedNewest(canon: Canon, m: Master, i: nat, path: StorePath)
    requires i < |m.inflight| && OnPath(canon, m.inflight[i], path)
    ensures Newest(canon, Logged(m, i).log, path) == |m.log| + 1
  {
    hide Appended;
    NewestGrows(canon, m.log, m.inflight[i].pub, path);
  }

  lemma WriteKeepsFresh(canon: Canon, m: Master, i: nat, n: nat, path: StorePath, bytes: Bytes)
    requires i < |m.inflight| && PutBasic(canon, m, m.inflight[i]) && OnPath(canon, m.inflight[i], path)
    requires Fresh(canon, m, path, bytes)
    ensures Fresh(canon, Written(canon, m, i, n), path, bytes)
  {
    var m', put := Written(canon, m, i, n), m.inflight[i];
    WrittenIs(canon, m, i, n);
    WriteIsMove(canon, m, i, n);
    hide Written, Newest, PartOfPut, Part;
    if m'.inflight[i].offset > put.offset {
      MovedBusy(canon, m.inflight, m'.inflight, path, put, m'.inflight[i]);
    }
  }

  lemma FailKeepsFresh(canon: Canon, m: Master, i: nat, tears: bool, path: StorePath, bytes: Bytes)
    requires i < |m.inflight| && OnPath(canon, m.inflight[i], path) && Fresh(canon, m, path, bytes)
    requires SameBytes(canon, m.inflight, path, m.inflight[i].pub.bin)
    requires Busy(canon, Without(m.inflight, i), path)
    ensures Fresh(canon, Failed(m, i, tears), path, bytes)
  {
    WithoutMembers(m.inflight, i);
    hide Newest, Part, FindOnTop, Mark, Without;
    if PartOfPut(canon, m.inflight, path, bytes) {
      var other :| other in Without(m.inflight, i) && OnPath(canon, other, path);
      assert other.pub.bin == m.inflight[i].pub.bin;
    }
  }

  lemma RestartKeepsFresh(canon: Canon, m: Master, path: StorePath, bytes: Bytes)
    requires !Busy(canon, m.inflight, path) && Fresh(canon, m, path, bytes)
    ensures Fresh(canon, m.(inflight := [], pending := []), path, bytes)
  {
    hide Newest, Part;
    assert !PartOfPut(canon, m.inflight, path, bytes);
  }

  /** The newest version stays, or is the one appended. */
  lemma StepNewest(canon: Canon, m: Master, step: Step, path: StorePath)
    requires !OfAgent(step)
    ensures var m' := NextMaster(canon, m, step);
            && m.torn <= m'.torn
            && (Newest(canon, m'.log, path) == Newest(canon, m.log, path) || Newest(canon, m'.log, path) == |m.log| + 1)
  {
    hide FindOnTop, Appended, Mark, WriteAt;
    if step.Append? && step.i < |m.inflight| {
      NewestGrows(canon, m.log, m.inflight[step.i].pub, path);
    }
  }

  lemma MasterKeepsAgentAgreement(canon: Canon, m: Master, step: Step, agent: Agent, path: StorePath)
    requires MasterBasic(canon, m) && MasterAgrees(canon, m, path) && !OfAgent(step) && Serial(canon, m, step, path)
    requires AgentBasic(m.log, m.torn, agent) && AgentAgrees(canon, m, agent, path)
    ensures AgentAgrees(canon, NextMaster(canon, m, step), agent, path)
  {
    var m' := NextMaster(canon, m, step);
    StepNewest(canon, m, step, path);
    hide Fresh, Newest, MasterBasic, MasterAgrees, Serial, NextMaster, AgentBasic, AgentAgrees;
    forall bytes | Fresh(canon, m, path, bytes)
      ensures Fresh(canon, m', path, bytes) || Newest(canon, m'.log, path) == |m.log| + 1
    {
      StepKeepsFresh(canon, m, step, path, bytes);
    }
    AgentStaysFresh(canon, m, m', agent, path);
  }

  lemma AgentStaysFresh(canon: Canon, m: Master, m': Master, agent: Agent, path: StorePath)
    requires AgentBasic(m.log, m.torn, agent) && AgentAgrees(canon, m, agent, path) && m.torn <= m'.torn
    requires forall bytes :: Fresh(canon, m, path, bytes) ==>
               Fresh(canon, m', path, bytes) || Newest(canon, m'.log, path) == |m.log| + 1
    requires Newest(canon, m'.log, path) == Newest(canon, m.log, path) || Newest(canon, m'.log, path) == |m.log| + 1
    ensures AgentAgrees(canon, m', agent, path)
  {
    hide Fresh, Newest, ReadBasic, StreamBasic, NoRecover, StreamFresh;
    match agent.session
    case Reading(snap, lost, left, backlog) =>
      ReadVersions(m.log, snap, lost, agent.cursor, left, backlog);
      StreamStaysFresh(canon, m, m', backlog, path);
    case Streaming(snap, lost, wire, queue, _, _, _, _, _, _, _) =>
      StreamVersions(m.log, snap, lost, Current(agent), wire + queue);
      StreamStaysFresh(canon, m, m', wire + queue, path);
    case _ =>
  }

  lemma ReadVersions(log: seq<Pub>, snap: nat, lost: set<nat>, from: nat, left: seq<Item>, backlog: seq<Envelope>)
    requires ReadBasic(log, snap, lost, from, left, backlog)
    ensures forall i :: 0 <= i < |backlog| ==> backlog[i].version <= |log|
  {
    assert forall i :: 0 <= i < |backlog| ==> MessageBasic(log, snap, backlog[i]);
  }

  lemma StreamVersions(log: seq<Pub>, snap: nat, lost: set<nat>, from: nat, all: seq<Envelope>)
    requires StreamBasic(log, snap, lost, from, all)
    ensures forall i :: 0 <= i < |all| ==> all[i].version <= |log|
  {
    assert forall i :: 0 <= i < |all| ==> MessageBasic(log, snap, all[i]);
  }

  lemma StreamStaysFresh(canon: Canon, m: Master, m': Master, all: seq<Envelope>, path: StorePath)
    requires StreamFresh(canon, m, all, path) && forall i :: 0 <= i < |all| ==> all[i].version <= |m.log|
    requires forall bytes :: Fresh(canon, m, path, bytes) ==>
               Fresh(canon, m', path, bytes) || Newest(canon, m'.log, path) == |m.log| + 1
    requires Newest(canon, m'.log, path) == Newest(canon, m.log, path) || Newest(canon, m'.log, path) == |m.log| + 1
    ensures StreamFresh(canon, m', all, path)
  {
    hide Fresh, Newest;
    forall i | 0 <= i < |all| ensures MessageFresh(canon, m', all[i], path) {
      assert MessageFresh(canon, m, all[i], path);
    }
  }

  lemma ReachedKeepsAgreement(canon: Canon, m: Master, agent: Agent, step: Step, path: StorePath)
    requires AgentBasic(m.log, m.torn, agent) && AgentAgrees(canon, m, agent, path) && !OfAgent(step)
    ensures AgentAgrees(canon, m, Reached(m, agent, step), path)
  {
    AgreesBelow(canon, m, agent, path);
    hide Agrees, Published, MessageFresh, AgentBasic;
    var s := agent.session;
    if step.Broadcast? && step.i < |m.pending| && 0 < m.pending[step.i] <= |m.log| && s.Streaming? {
      var msg := NormalOf(m.log, m.pending[step.i]);
      NormalIsFresh(canon, m, s.wire + s.queue, msg, path);
      assert s.wire + (s.queue + [msg]) == (s.wire + s.queue) + [msg];
    }
  }

  lemma NormalIsFresh(canon: Canon, m: Master, all: seq<Envelope>, e: Envelope, path: StorePath)
    requires StreamFresh(canon, m, all, path) && !e.tier.Recover?
    ensures StreamFresh(canon, m, all + [e], path)
  {
  }

  lemma AgreesBelow(canon: Canon, m: Master, agent: Agent, path: StorePath)
    requires AgentBasic(m.log, m.torn, agent) && AgentAgrees(canon, m, agent, path)
    ensures Agrees(canon, m, agent.store, agent.cursor, path)
  {
    hide StreamBasic, ReadBasic, Fresh, Newest;
  }

  // ---------------------------------------------------------------------------------------------
  // The agent's steps

  /** When a message is applied, a path whose newest version lies between the cursor and the message,
      and was not torn, is the message's own: anything else that was on top would still be ahead
      of it in the stream, and a NORMAL message leaves no room in between. */
  lemma NothingSkipped(canon: Canon, m: Master, snap: nat, lost: set<nat>, from: nat, recovering: bool,
                       all: seq<Envelope>, path: StorePath)
    requires StreamBasic(m.log, snap, lost, from, all) && all != [] && |m.log| < MAX_INDEX
    requires from <= |m.log| && Decide(from, recovering, all[0]).Apply?
    requires from < Newest(canon, m.log, path) <= all[0].version && Newest(canon, m.log, path) !in lost
    ensures Newest(canon, m.log, path) == all[0].version && canon(KeyOf(all[0])) == path
  {
    var n := Newest(canon, m.log, path);
    assert MessageBasic(m.log, snap, all[0]);
    if all[0].tier.Recover? {
      NewestIsLastRaw(canon, m.log, path, snap);
      assert WasOnTop(m.log, snap, lost, from, n);
      var i :| 0 <= i < |all| && all[i].tier.Recover? && all[i].version == n;
      HeadIsLeast(all, i);
    }
  }

  lemma HeadIsLeast(all: seq<Envelope>, i: nat)
    requires RecoverFirst(all) && i < |all| && all[i].tier.Recover?
    ensures i == 0 || all[0].version < all[i].version
  {
  }

  /** The bytes a message brings are fresh if it is the newest of its path. */
  lemma AppliedIsFresh(canon: Canon, m: Master, snap: nat, e: Envelope)
    requires MessageBasic(m.log, snap, e) && MessageFresh(canon, m, e, canon(KeyOf(e)))
    ensures Newest(canon, m.log, canon(KeyOf(e))) >= e.version > 0
    ensures Newest(canon, m.log, canon(KeyOf(e))) == e.version ==> Fresh(canon, m, canon(KeyOf(e)), e.bin)
  {
    NewestLast(canon, m.log, canon(KeyOf(e)), e.version);
    hide PartOfPut;
  }

  lemma ApplyKeepsAgrees(canon: Canon, m: Master, snap: nat, lost: set<nat>, from: nat, recovering: bool,
                         all: seq<Envelope>, store: Data, path: StorePath)
    requires StreamBasic(m.log, snap, lost, from, all) && all != [] && |m.log| < MAX_INDEX && lost <= m.torn
    requires from <= |m.log| && Decide(from, recovering, all[0]).Apply?
    requires Agrees(canon, m, store, from, path) && Published(canon, m, store, path)
    requires MessageFresh(canon, m, all[0], path)
    ensures Agrees(canon, m, store[canon(KeyOf(all[0])) := all[0].bin], all[0].version, path)
    ensures Published(canon, m, store[canon(KeyOf(all[0])) := all[0].bin], path)
  {
    var e := all[0];
    assert MessageBasic(m.log, snap, e);
    if canon(KeyOf(e)) == path {
      AppliedIsFresh(canon, m, snap, e);
    }
    hide Fresh, Newest, StreamBasic, MessageFresh;
    var n := Newest(canon, m.log, path);
    if from < n <= e.version && n !in m.torn {
      NothingSkipped(canon, m, snap, lost, from, recovering, all, path);
    }
  }

  lemma TailKeepsFresh(canon: Canon, m: Master, all: seq<Envelope>, path: StorePath)
    requires StreamFresh(canon, m, all, path) && all != []
    ensures MessageFresh(canon, m, all[0], path) && StreamFresh(canon, m, all[1..], path)
  {
    hide MessageFresh;
  }

  lemma ReceivedKeepsAgreement(canon: Canon, m: Master, agent: Agent, path: StorePath)
    requires MasterBasic(canon, m) && AgentBasic(m.log, m.torn, agent) && AgentAgrees(canon, m, agent, path)
    requires agent.session.Streaming? && agent.session.wire != [] && agent.session.saving.None?
    ensures AgentAgrees(canon, m, Received(canon, agent), path)
  {
    var s := agent.session;
    var all := s.wire + s.queue;
    assert all[0] == s.wire[0] && all[1..] == s.wire[1..] + s.queue;
    TailKeepsFresh(canon, m, all, path);
    Bounded(canon, m);
    hide Agrees, Published, StreamFresh, MessageFresh, StreamBasic, ApplyError, MasterBasic, NoRecover;
    if Decide(agent.cursor, s.recovering, s.wire[0]).Apply? {
      ApplyKeepsAgrees(canon, m, s.snap, s.lost, agent.cursor, s.recovering, all, agent.store, path);
    }
  }

  lemma Bounded(canon: Canon, m: Master)
    requires MasterBasic(canon, m)
    ensures |m.log| < MAX_INDEX && forall i :: 0 <= i < |m.log| ==> Accepted(m.log[i])
  {
  }

  /** A stop in the middle of replacing a file costs nothing below the cursor. */
  lemma TornFileKeepsAgreement(canon: Canon, m: Master, snap: nat, agent: Agent, e: Envelope, path: StorePath)
    requires Agrees(canon, m, agent.store, agent.cursor, path) && Published(canon, m, agent.store, path)
    requires MessageBasic(m.log, snap, e) && e.version > agent.cursor
    ensures Agrees(canon, m, agent.store - {canon(KeyOf(e))}, agent.cursor, path)
    ensures Published(canon, m, agent.store - {canon(KeyOf(e))}, path)
  {
    NewestOfMessage(canon, m.log, snap, e);
    hide Fresh, Newest;
  }

  /** A message read now is fresh. */
  lemma LoadedIsFresh(canon: Canon, m: Master, item: Item, from: nat, backlog: seq<Envelope>, path: StorePath)
    requires MasterAgrees(canon, m, path) && StreamFresh(canon, m, backlog, path)
    ensures StreamFresh(canon, m, backlog + Entry(item, from, canon, m.store), path)
  {
    if path in m.store {
      StoredIsFresh(canon, m, path);
    }
    KeyOfRecovered(item, if canon(item.key) in m.store then m.store[canon(item.key)] else []);
    hide Fresh, Newest, MasterAgrees, Recovered;
  }

  lemma KeyOfRecovered(item: Item, bin: Bytes)
    ensures KeyOf(Recovered(item, bin)) == item.key && Recovered(item, bin).bin == bin
  {
  }

  lemma StoredIsFresh(canon: Canon, m: Master, path: StorePath)
    requires MasterAgrees(canon, m, path) && path in m.store
    ensures Fresh(canon, m, path, m.store[path])
  {
    hide Newest, Part, Mends;
  }

  lemma AgentStepKeepsAgreement(canon: Canon, m: Master, agent: Agent, step: Step, path: StorePath)
    requires MasterBasic(canon, m) && MasterAgrees(canon, m, path)
    requires AgentBasic(m.log, m.torn, agent) && AgentAgrees(canon, m, agent, path) && OfAgent(step)
    ensures AgentAgrees(canon, m, NextAgent(canon, m, agent, step), path)
  {
    hide *;
    match step
    case Load(_) => LoadKeepsAgreement(canon, m, agent, step, path);
    case Receive(_) => ReceiveKeepsAgreement(canon, m, agent, step, path);
    case StopInApply(_) => StopKeepsAgreement(canon, m, agent, step, path);
    case _ => MoveKeepsAgreement(canon, m, agent, step, path);
  }

  lemma LoadKeepsAgreement(canon: Canon, m: Master, agent: Agent, step: Step, path: StorePath)
    requires MasterBasic(canon, m) && MasterAgrees(canon, m, path)
    requires AgentBasic(m.log, m.torn, agent) && AgentAgrees(canon, m, agent, path) && step.Load?
    ensures AgentAgrees(canon, m, NextAgent(canon, m, agent, step), path)
  {
    hide MasterBasic, MasterAgrees, StreamFresh, Published, Received, StreamBasic, NoRecover, Agrees, ApplyError, KeyOf;
    hide ReadBasic, Entry, Decide;
    var s := agent.session;
    if s.Reading? && s.left != [] {
      LoadedIsFresh(canon, m, s.left[0], agent.cursor, s.backlog, path);
    }
  }

  lemma ReceiveKeepsAgreement(canon: Canon, m: Master, agent: Agent, step: Step, path: StorePath)
    requires MasterBasic(canon, m) && MasterAgrees(canon, m, path)
    requires AgentBasic(m.log, m.torn, agent) && AgentAgrees(canon, m, agent, path) && step.Receive?
    ensures AgentAgrees(canon, m, NextAgent(canon, m, agent, step), path)
  {
    AgreesBelow(canon, m, agent, path);
    hide MasterBasic, AgentBasic, Agrees, StreamFresh, Published, Received;
    var s := agent.session;
    if s.Streaming? && s.wire != [] && s.saving.None? {
      ReceivedKeepsAgreement(canon, m, agent, path);
    }
  }

  lemma StopKeepsAgreement(canon: Canon, m: Master, agent: Agent, step: Step, path: StorePath)
    requires MasterBasic(canon, m) && MasterAgrees(canon, m, path)
    requires AgentBasic(m.log, m.torn, agent) && AgentAgrees(canon, m, agent, path) && step.StopInApply?
    ensures AgentAgrees(canon, m, NextAgent(canon, m, agent, step), path)
  {
    hide MasterBasic, MasterAgrees, StreamFresh, Published, Received, StreamBasic, NoRecover, Agrees, ApplyError, KeyOf;
    hide ReadBasic, Entry, Decide;
    AgreesBelow(canon, m, agent, path);
    Bounded(canon, m);
    var s := agent.session;
    if s.Streaming? && s.wire != [] && s.saving.None? && Decide(agent.cursor, s.recovering, s.wire[0]).Apply? {
      HeadIsBasic(m.log, s.snap, s.lost, agent.cursor, s.recovering, s.wire, s.queue);
      TornFileKeepsAgreement(canon, m, s.snap, agent, s.wire[0], path);
    }
  }

  /** The steps that apply nothing and read nothing. */
  lemma MoveKeepsAgreement(canon: Canon, m: Master, agent: Agent, step: Step, path: StorePath)
    requires AgentBasic(m.log, m.torn, agent) && AgentAgrees(canon, m, agent, path) && OfAgent(step)
    requires !step.Load? && !step.Receive? && !step.StopInApply?
    ensures AgentAgrees(canon, m, NextAgent(canon, m, agent, step), path)
  {
    AgreesBelow(canon, m, agent, path);
    NothingStale(canon, m, path);
    hide *;
    if step.Send? {
      SendKeepsAgreement(canon, m, agent, step, path);
    } else {
      SessionKeepsAgreement(canon, m, agent, step, path);
    }
  }

  lemma SendKeepsAgreement(canon: Canon, m: Master, agent: Agent, step: Step, path: StorePath)
    requires AgentAgrees(canon, m, agent, path) && step.Send?
    ensures AgentAgrees(canon, m, NextAgent(canon, m, agent, step), path)
  {
    hide StreamFresh, Published, Agrees;
    var s := agent.session;
    if s.Streaming? && s.queue != [] {
      assert (s.wire + [s.queue[0]]) + s.queue[1..] == s.wire + s.queue;
    }
  }

  lemma SessionKeepsAgreement(canon: Canon, m: Master, agent: Agent, step: Step, path: StorePath)
    requires AgentAgrees(canon, m, agent, path) && Agrees(canon, m, agent.store, agent.cursor, path)
    requires StreamFresh(canon, m, [], path)
    requires OfAgent(step) && !step.Send? && !step.Load? && !step.Receive? && !step.StopInApply?
    ensures AgentAgrees(canon, m, NextAgent(canon, m, agent, step), path)
  {
    hide StreamFresh, Published, Agrees;
    if agent.session.Reading? {
      assert [] + agent.session.backlog == agent.session.backlog;
    }
  }

  lemma NothingStale(canon: Canon, m: Master, path: StorePath)
    ensures StreamFresh(canon, m, [], path)
  {
  }

  lemma HeadIsBasic(log: seq<Pub>, snap: nat, lost: set<nat>, from: nat, recovering: bool, wire: seq<Envelope>,
                    queue: seq<Envelope>)
    requires StreamBasic(log, snap, lost, from, wire + queue) && wire != []
    requires !recovering ==> NoRecover(wire + queue)
    requires forall i :: 0 <= i < |log| ==> Accepted(log[i])
    ensures MessageBasic(log, snap, wire[0])
    ensures Decide(from, recovering, wire[0]).Apply? ==> from < wire[0].version
  {
    assert (wire + queue)[0] == wire[0];
    assert MessageBasic(log, snap, (wire + queue)[0]);
    HeadOutcome(log, snap, lost, from, recovering, wire + queue);
  }

  /** An object is empty only while a publish of it is in flight: then alone can a backlog load a change
      that cannot be applied. */
  lemma EmptyOnlyWhileWritten(canon: Canon, m: Master, path: StorePath)
    requires MasterBasic(canon, m) && MasterAgrees(canon, m, path) && path in m.store && m.store[path] == []
    ensures Busy(canon, m.inflight, path)
  {
    Bounded(canon, m);
    hide MasterBasic, Newest, Mends, Part;
  }

  // ---------------------------------------------------------------------------------------------
  // Torn versions

  lemma TornInRange(canon: Canon, m: Master)
    requires MasterBasic(canon, m)
    ensures forall v :: v in m.torn ==> 0 < v <= |m.log|
  {
    hide PutBasic;
  }

  /** An append of another path tears no version of this one. */
  lemma TearsElsewhere(canon: Canon, m: Master, i: nat, tears: bool, path: StorePath)
    requires MasterBasic(canon, m) && i < |m.inflight| && !OnPath(canon, m.inflight[i], path)
    ensures Newest(canon, m.log, path) in Failed(m, i, tears).torn <==> Newest(canon, m.log, path) in m.torn
  {
    WalParts(canon, m);
    hide MasterBasic, LastRaw, Without;
    var n, p := Newest(canon, m.log, path), FindOnTop(m.wal, m.inflight[i].pub.key);
    assert p >= 0 ==> m.wal[p].index == p + 1 && m.wal[p].key == KeyAt(m.log, p + 1);
  }

  lemma MasterKeepsMended(canon: Canon, m: Master, step: Step, path: StorePath)
    requires MasterBasic(canon, m) && MendedAt(canon, m, path) && !OfAgent(step) && Serial(canon, m, step, path)
    ensures MendedAt(canon, NextMaster(canon, m, step), path)
  {
    TornInRange(canon, m);
    hide MasterBasic, FindOnTop, Appended, Mark, WriteAt, Settles, SameBytes, Newest;
    if step.MasterRestart? {
      NoPuts(canon, path);
    } else if Elsewhere(canon, m, step, path) {
      ElsewhereIsSame(canon, m, step, path);
      SamePutsSame(canon, m.inflight, NextMaster(canon, m, step).inflight, path);
      hide Busy;
      if step.Fail? && step.i < |m.inflight| {
        TearsElsewhere(canon, m, step.i, step.tears, path);
      }
    } else {
      OnPathKeepsMended(canon, m, step, path);
    }
  }

  lemma NoPuts(canon: Canon, path: StorePath)
    ensures !Busy(canon, [], path)
  {
  }

  lemma OnPathKeepsMended(canon: Canon, m: Master, step: Step, path: StorePath)
    requires MasterBasic(canon, m) && MendedAt(canon, m, path) && !OfAgent(step) && Serial(canon, m, step, path)
    requires !Elsewhere(canon, m, step, path) && !step.MasterRestart?
    ensures MendedAt(canon, NextMaster(canon, m, step), path)
  {
    hide FindOnTop, Appended, Mark, WriteAt, Settles, SameBytes, WalFits;
    match step
    case Create(p) => assert Put(p, 0) in m.inflight + [Put(p, 0)];
    case Write(i, n) =>
      WrittenIs(canon, m, i, n);
      UpdateMembers(m.inflight, i, Written(canon, m, i, n).inflight[i]);
    case Append(i) =>
      TornInRange(canon, m);
      NewestGrows(canon, m.log, m.inflight[i].pub, path);
    case Fail(i, tears) => assert Failed(m, i, tears).inflight == Without(m.inflight, i);
    case _ =>
  }

  // ---------------------------------------------------------------------------------------------
  // Every disciplined run

  lemma StepKeepsAgreement(canon: Canon, c: Cluster, step: Step, path: StorePath)
    requires Agreeing(canon, c, path) && Serial(canon, c.master, step, path)
    ensures Agreeing(canon, Next(canon, c, step), path)
  {
    StepKeepsBasic(canon, c, step);
    hide Basic, MasterAgrees, AgentAgrees, NextMaster, NextAgent, Reached, Serial, MendedAt;
    BasicParts(canon, c);
    if OfAgent(step) {
      if step.a in c.agents {
        AgentStepKeepsAgreement(canon, c.master, c.agents[step.a], step, path);
      }
    } else {
      MasterKeepsAgreement(canon, c.master, step, path);
      MasterKeepsMended(canon, c.master, step, path);
      forall a | a in c.agents
        ensures AgentAgrees(canon, NextMaster(canon, c.master, step), Reached(c.master, c.agents[a], step), path)
      {
        ReachedKeepsAgent(c.master, c.agents[a], step);
        ReachedKeepsAgreement(canon, c.master, c.agents[a], step, path);
        MasterKeepsAgentAgreement(canon, c.master, step, Reached(c.master, c.agents[a], step), path);
      }
    }
  }

  lemma BasicParts(canon: Canon, c: Cluster)
    requires Basic(canon, c)
    ensures MasterBasic(canon, c.master)
    ensures forall a :: a in c.agents ==> AgentBasic(c.master.log, c.master.torn, c.agents[a])
  {
  }

  lemma {:induction false} SerialRunsAgree(canon: Canon, ids: set<AgentId>, steps: seq<Step>, path: StorePath)
    requires SerialRun(canon, Init(ids), steps, path)
    ensures Agreeing(canon, Exec(canon, Init(ids), steps), path)
  {
    if steps == [] {
      InitAgrees(canon, ids, path);
    } else {
      SerialRunsAgree(canon, ids, steps[..|steps| - 1], path);
      hide Agreeing, Next, Serial;
      StepKeepsAgreement(canon, Exec(canon, Init(ids), steps[..|steps| - 1]), steps[|steps| - 1], path);
    }
  }

  lemma InitAgrees(canon: Canon, ids: set<AgentId>, path: StorePath)
    ensures Agreeing(canon, Init(ids), path)
  {
    EveryRunIsBasic(canon, ids, []);
  }

  /** Main result. After any run in which the publishes of a store path are disciplined - with writes
      in any number of pieces, delayed and reordered broadcasts, backlogs read piecemeal and
      stale, appends torn, evictions, disconnects, restarts of either side, and stops between
      applying and saving or in the middle of replacing a file - if the path's newest version is at
      most an agent's cursor, the agent holds that version's bytes, or part of those of a publish
      of the path in flight; with none in flight, exactly that version's bytes, as the master
      does. (While one is in flight, the version must not have been torn by another one that
      wrote the same bytes and gave up.) */
  lemma AgreementBelowCursor(canon: Canon, ids: set<AgentId>, steps: seq<Step>, a: AgentId, path: StorePath)
    requires SerialRun(canon, Init(ids), steps, path)
    requires var c := Exec(canon, Init(ids), steps);
             && a in c.agents && 0 < Newest(canon, c.master.log, path) <= c.agents[a].cursor
             && (Busy(canon, c.master.inflight, path) ==> Newest(canon, c.master.log, path) !in c.master.torn)
    ensures var c := Exec(canon, Init(ids), steps);
            var agent, newest := c.agents[a], c.master.log[Newest(canon, c.master.log, path) - 1];
            && path in agent.store
            && (agent.store[path] == newest.bin || PartOfPut(canon, c.master.inflight, path, agent.store[path]))
            && (!Busy(canon, c.master.inflight, path) ==> agent.store[path] == newest.bin == Stored(c.master, path))
  {
    hide *;
    SerialRunsAgree(canon, ids, steps, path);
    AgreesAtPath(canon, Exec(canon, Init(ids), steps), a, path);
  }

  lemma AgreesAtPath(canon: Canon, c: Cluster, a: AgentId, path: StorePath)
    requires Agreeing(canon, c, path) && a in c.agents
    requires 0 < Newest(canon, c.master.log, path) <= c.agents[a].cursor
    requires Busy(canon, c.master.inflight, path) ==> Newest(canon, c.master.log, path) !in c.master.torn
    ensures var agent, newest := c.agents[a], c.master.log[Newest(canon, c.master.log, path) - 1];
            && path in agent.store
            && (agent.store[path] == newest.bin || PartOfPut(canon, c.master.inflight, path, agent.store[path]))
            && (!Busy(canon, c.master.inflight, path) ==> agent.store[path] == newest.bin == Stored(c.master, path))
  {
    BasicParts(canon, c);
    AgreesBelow(canon, c.master, c.agents[a], path);
    NewestIsStored(canon, c.master, path);
    hide Newest, Basic, AgentAgrees, Mends;
  }

  lemma NewestIsStored(canon: Canon, m: Master, path: StorePath)
    requires MasterBasic(canon, m) && Newest(canon, m.log, path) > 0
    ensures path in m.store
  {
    assert canon(m.log[Newest(canon, m.log, path) - 1].key) in m.store;
  }
}
