/** The follower's loops, proved against the decisions of `Following`. */
module Followers {
  import opened Events
  import opened WalLog
  import opened ChangeStores
  import opened Following
  import opened FileWals
  import opened WalManagers

  /** The agent's own log after it saved these changes, none of them skipped. */
  function LogAfter(log: seq<Item>, changes: seq<Envelope>): seq<Item> {
    if changes == [] then log
    else
      var last := changes[|changes| - 1];
      Appended(LogAfter(log, changes[..|changes| - 1]), last.version, KeyOf(last))
  }

  class Follower {
    const applier: ChangeStore
    const store: WALManager
    ghost const startLog: seq<Item>
    ghost const startData: map<StorePath, Bytes>
    ghost var applied: seq<Envelope>  // every change applied since the process started

    constructor (applier: ChangeStore, store: WALManager)
      requires store.Valid() && store.store == applier
      ensures Valid() && applied == []
      ensures this.applier == applier && this.store == store
      ensures startLog == store.wal.Log() && startData == applier.data
    {
      this.applier := applier;
      this.store := store;
      startLog := store.wal.Log();
      startData := applier.data;
      applied := [];
    }

    ghost predicate Valid()
      reads this, store.wal, applier
    {
      && store.Valid()
      && store.store == applier
      && store.wal.Log() == LogAfter(startLog, applied)
      && applier.data == StoreAfter(applier.canon, startData, applied)
    }

    ghost function Cursor(): nat
      reads store.wal
    {
      Latest(store.wal.Log())
    }

    /** Applies a change past the cursor and saves its version. The save is never skipped. */
    method ApplyAndSave(change: Envelope) returns (r: Result<(), StoreError>)
      requires Valid() && change.version > Cursor()
      modifies this`applied, store.wal`files, applier
      ensures Valid()
      ensures r == (match ApplyError(change) case Some(e) => Err(e) case None => Ok(()))
      ensures r.Err? ==> applied == old(applied) && Cursor() == old(Cursor())
      ensures r.Ok? ==> applied == old(applied) + [change] && Cursor() == change.version
    {
      hide Latest, Appended, WalOk, LogAfter, StoreAfter;
      r := applier.Apply(change);
      if r.Ok? {
        var saved := store.SaveApplied(change, {});
        applied := applied + [change];
        AfterOneMore(applier.canon, startLog, startData, applied);
      }
    }

    /** One session. Its loop starts from the stored cursor, and at every turn the stored cursor is
        the loop's `current`. */
    method Consume(stream: Stream, start: nat) returns (err: StreamError)
      requires Valid() && start == Cursor()
      modifies this`applied, store.wal`files, applier
      ensures Valid()
      ensures var p := Session(start, old(applied), stream);
              p.error == Some(err) && applied == p.applied && Cursor() == p.current
    {
      hide Follower.Valid, Follower.Cursor, Consumed;
      var current, recovering, i := start, true, 0;
      ghost var p0 := Progress(start, true, applied, None);
      ConsumedNone(p0, stream.received);
      while true
        invariant 0 <= i <= |stream.received|
        invariant Valid() && Cursor() == current
        invariant Consumed(p0, stream.received[..i]) == Progress(current, recovering, applied, None)
        decreases |stream.received| - i
      {
        if i == |stream.received| {
          assert stream.received[..i] == stream.received;
          return stream.ending;
        }
        var received := stream.received[i];
        ConsumedStep(p0, stream.received, i);
        i := i + 1;
        if received.None? {
          continue;
        }
        var change := received.value;
        ConsumedStopped(p0, stream.received, i);

        if change.tier.Recover? {
          if !recovering {
            return RecoverAfterNormal;
          }
        } else {
          recovering := false;
        }

        if change.version == 0 {
          return EmptyVersion;
        } else if change.tier.Recover? {
          if change.version <= current {
            continue;
          }
        } else {
          var expected := Succ64(current);
          if change.version < expected {
            continue;
          }
          if change.version > expected {
            return VersionGap;
          }
        }

        var outcome := ApplyAndSave(change);
        if outcome.Err? {
          return NotApplied(outcome.error);
        }
        current := change.version;
      }
    }

    /** Session after session until an error that is not retried: any but the end of the stream, a
        future version, a gap and a late RECOVER. The cursor each session subscribes with is loaded
        from the agent's own log. */
    method Run(sessions: seq<Stream>) returns (err: Option<StreamError>)
      requires Valid() && applied == []
      modifies this`applied, store.wal`files, applier
      ensures Valid()
      ensures err.None? <==> forall n :: 0 < n <= |sessions| ==>
                AfterSessions(old(Cursor()), sessions[..n]).error
                  in {Some(EndOfStream), Some(FutureVersion), Some(VersionGap), Some(RecoverAfterNormal)}
      ensures err.None? ==> var p := AfterSessions(old(Cursor()), sessions);
                            applied == p.applied && Cursor() == p.current
      ensures err.Some? ==>
                err.value.ReceiveFailed? || err.value.EmptyVersion? || err.value.NotApplied? || err.value.NotSaved?
      ensures err.Some? ==>
                exists n :: 0 < n <= |sessions| && RetriedBefore(old(Cursor()), sessions, n)
                            && AfterSessions(old(Cursor()), sessions[..n]).error == err
                            && AfterSessions(old(Cursor()), sessions[..n]).applied == applied
                            && AfterSessions(old(Cursor()), sessions[..n]).current == Cursor()
    {
      hide Latest, WalOk, LogAfter, StoreAfter, Session, AfterSessions, FileWAL.Log, WALManager.Valid, RetriedBefore;
      ghost var from := Cursor();
      NoSession(from, sessions);
      NoneRetried(from, sessions);
      for i := 0 to |sessions|
        invariant Valid()
        invariant AfterSessions(from, sessions[..i]).applied == applied
        invariant AfterSessions(from, sessions[..i]).current == Cursor()
        invariant RetriedBefore(from, sessions, i + 1)
      {
        var current := store.Load();
        OneMoreSession(from, sessions, i);
        OneMoreRetried(from, sessions, i + 1);
        var e := Consume(sessions[i], current);
        if !Retried(e) {
          return Some(e);
        }
      }
      assert sessions[..|sessions|] == sessions;
      AllRetried(from, sessions, |sessions| + 1);
      return None;
    }

    /** A session that ends in a gap, then one that brings the backlog from where the first one ended:
        the agent is at the last version of the backlog, with every change of it applied. */
    method RunOverGap(first: Stream, backlog: seq<Envelope>) returns (err: Option<StreamError>)
      requires Valid() && applied == []
      requires Session(Cursor(), [], first).error == Some(VersionGap)
      requires IsBacklog(Session(Cursor(), [], first).current, backlog) && backlog != []
      modifies this`applied, store.wal`files, applier
      ensures Valid()
      ensures err == None && Cursor() == backlog[|backlog| - 1].version
      ensures applied == Session(old(Cursor()), [], first).applied + backlog
    {
      hide Follower.Valid, Latest, Consumed, Delivered, IsBacklog;
      ghost var from, p := Cursor(), Session(Cursor(), [], first);
      var sessions := [first, Stream(Delivered(backlog), EndOfStream)];
      NoSession(from, sessions);
      OneMoreSession(from, sessions, 0);
      OneMoreSession(from, sessions, 1);
      assert sessions[..2] == sessions;
      BacklogSession(p.current, p.applied, backlog, EndOfStream);
      err := Run(sessions);
    }
  }

  /** Every session before the n-th ends in an error that is retried. */
  ghost predicate RetriedBefore(start: nat, sessions: seq<Stream>, n: nat)
    requires n <= |sessions| + 1
  {
    forall i :: 0 < i < n ==>
      AfterSessions(start, sessions[..i]).error
        in {Some(EndOfStream), Some(FutureVersion), Some(VersionGap), Some(RecoverAfterNormal)}
  }

  lemma OneMoreRetried(start: nat, sessions: seq<Stream>, n: nat)
    requires 0 < n <= |sessions| && RetriedBefore(start, sessions, n)
    ensures var e := AfterSessions(start, sessions[..n]).error;
            RetriedBefore(start, sessions, n + 1) <==> e.Some? && Retried(e.value)
  {
    hide AfterSessions;
  }

  lemma AllRetried(start: nat, sessions: seq<Stream>, n: nat)
    requires n <= |sessions| + 1 && RetriedBefore(start, sessions, n)
    ensures forall i :: 0 < i < n ==>
              AfterSessions(start, sessions[..i]).error
                in {Some(EndOfStream), Some(FutureVersion), Some(VersionGap), Some(RecoverAfterNormal)}
  {
    hide AfterSessions;
  }

  lemma NoneRetried(start: nat, sessions: seq<Stream>)
    ensures RetriedBefore(start, sessions, 1)
  {
  }

  lemma AfterOneMore(canon: Canon, log: seq<Item>, data: map<StorePath, Bytes>, changes: seq<Envelope>)
    requires changes != []
    ensures var front, last := changes[..|changes| - 1], changes[|changes| - 1];
            && LogAfter(log, changes) == Appended(LogAfter(log, front), last.version, KeyOf(last))
            && StoreAfter(canon, data, changes) == StoreAfter(canon, data, front)[canon(KeyOf(last)) := last.bin]
  {
  }

  lemma ConsumedNone(p: Progress, received: seq<Option<Envelope>>)
    ensures Consumed(p, received[..0]) == p
  {
  }

  lemma ConsumedStep(p: Progress, received: seq<Option<Envelope>>, i: nat)
    requires i < |received|
    ensures Consumed(p, received[..i + 1]) == Step(Consumed(p, received[..i]), received[i])
  {
    assert received[..i + 1][..i] == received[..i];
  }

  /** Nothing received after the error changes anything. */
  lemma {:induction false} ConsumedStopped(p: Progress, received: seq<Option<Envelope>>, i: nat)
    requires i <= |received|
    ensures Consumed(p, received[..i]).error.Some? ==> Consumed(p, received) == Consumed(p, received[..i])
    decreases |received| - i
  {
    if i == |received| {
      assert received[..i] == received;
    } else {
      hide Consumed;
      ConsumedStep(p, received, i);
      ConsumedStopped(p, received, i + 1);
    }
  }

  lemma NoSession(start: nat, sessions: seq<Stream>)
    ensures AfterSessions(start, sessions[..0]) == Progress(start, true, [], None)
  {
  }

  lemma OneMoreSession(start: nat, sessions: seq<Stream>, i: nat)
    requires i < |sessions|
    ensures var before := AfterSessions(start, sessions[..i]);
            AfterSessions(start, sessions[..i + 1]) == Session(before.current, before.applied, sessions[i])
  {
    assert sessions[..i + 1][..i] == sessions[..i];
  }
}
