/** What a follower does with each message of a replication stream, as a pure decision, and what
    any stream can make it do. */
module Following {
  import opened Events
  import opened ChangeStores

  datatype StreamError =
    | EndOfStream
    | ReceiveFailed
    | FutureVersion
    | RecoverAfterNormal
    | VersionGap
    | EmptyVersion
    | NotApplied(reason: StoreError)
    | NotSaved

  datatype Decision = Skip | Apply | Stop(error: StreamError)

  /** The decision on one message, before it is applied. */
  function Decide(current: nat, recovering: bool, change: Envelope): (d: Decision)
    ensures d == Stop(RecoverAfterNormal) <==> change.tier.Recover? && !recovering
    ensures d == Stop(EmptyVersion) <==> change.version == 0 && (change.tier.Recover? ==> recovering)
    ensures current < 0xFFFF_FFFF_FFFF_FFFF ==>
              (d == Stop(VersionGap) <==> !change.tier.Recover? && change.version > current + 1)
    ensures current == 0xFFFF_FFFF_FFFF_FFFF && !change.tier.Recover? && change.version > 0 ==> d == Stop(VersionGap)
    ensures current < 0xFFFF_FFFF_FFFF_FFFF ==>
              (d == Apply <==> if change.tier.Recover? then recovering && change.version > current
                               else change.version == current + 1)
  {
    if change.tier.Recover? && !recovering then Stop(RecoverAfterNormal)
    else if change.version == 0 then Stop(EmptyVersion)
    else if change.tier.Recover? then
      if change.version <= current then Skip else Apply
    else if change.version < Succ64(current) then Skip
    else if change.version > Succ64(current) then Stop(VersionGap)
    else Apply
  }

  /** A message of another tier than RECOVER ends the recovery phase. */
  function StillRecovering(recovering: bool, change: Envelope): bool {
    recovering && change.tier.Recover?
  }

  /** The consume loop's variables, and the changes applied so far over all sessions. */
  datatype Progress = Progress(current: nat, recovering: bool, applied: seq<Envelope>, error: Option<StreamError>)

  /** One received message; the stream may also yield an empty one. */
  function Step(p: Progress, received: Option<Envelope>): Progress {
    if p.error.Some? || received.None? then p
    else
      var change := received.value;
      match Decide(p.current, p.recovering, change)
      case Stop(e) => p.(recovering := StillRecovering(p.recovering, change), error := Some(e))
      case Skip => p.(recovering := StillRecovering(p.recovering, change))
      case Apply =>
        match ApplyError(change)
        case Some(e) => p.(recovering := StillRecovering(p.recovering, change), error := Some(NotApplied(e)))
        case None => Progress(change.version, StillRecovering(p.recovering, change), p.applied + [change], None)
  }

  /** What was received in one session, and the error the next receive returned. */
  datatype Stream = Stream(received: seq<Option<Envelope>>, ending: StreamError)

  function Consumed(p: Progress, received: seq<Option<Envelope>>): Progress {
    if received == [] then p else Step(Consumed(p, received[..|received| - 1]), received[|received| - 1])
  }

  /** One session from a cursor, up to the error that ends it. */
  function Session(current: nat, applied: seq<Envelope>, stream: Stream): Progress {
    var p := Consumed(Progress(current, true, applied, None), stream.received);
    if p.error.None? then p.(error := Some(stream.ending)) else p
  }

  predicate Retried(e: StreamError) {
    e.EndOfStream? || e.FutureVersion? || e.VersionGap? || e.RecoverAfterNormal?
  }

  /** Session after session, each from the cursor the previous one left and whatever error it ended
      in; the error is that of the last. */
  function AfterSessions(start: nat, sessions: seq<Stream>): Progress {
    if sessions == [] then Progress(start, true, [], None)
    else
      var before := AfterSessions(start, sessions[..|sessions| - 1]);
      Session(before.current, before.applied, sessions[|sessions| - 1])
  }

  ghost predicate Rising(applied: seq<Envelope>) {
    forall i, j :: 0 <= i < j < |applied| ==> applied[i].version < applied[j].version
  }

  /** The cursor before the i-th applied change. */
  function Before(start: nat, applied: seq<Envelope>, i: nat): nat
    requires i <= |applied|
  {
    if i == 0 then start else applied[i - 1].version
  }

  ghost predicate Stepwise(start: nat, applied: seq<Envelope>) {
    forall i :: 0 <= i < |applied| && !applied[i].tier.Recover? ==>
      applied[i].version == Before(start, applied, i) + 1
  }

  /** The cursor is the version of the last applied change; applied versions rise; and every change
      applied outside the RECOVER tier is the direct successor of the cursor before it. */
  ghost predicate InStep(start: nat, p: Progress) {
    && p.current == Before(start, p.applied, |p.applied|)
    && (forall i :: 0 <= i < |p.applied| ==> start < p.applied[i].version <= p.current)
    && start <= p.current
    && Rising(p.applied)
    && Stepwise(start, p.applied)
  }

  lemma ApplyKeepsInStep(start: nat, p: Progress, change: Envelope)
    requires InStep(start, p) && Decide(p.current, p.recovering, change).Apply?
    ensures InStep(start, p.(current := change.version, applied := p.applied + [change]))
  {
    var applied := p.applied + [change];
    forall i | 0 <= i < |applied| && !applied[i].tier.Recover?
      ensures applied[i].version == Before(start, applied, i) + 1
    {
      assert Before(start, applied, i) == Before(start, p.applied, i);
    }
  }

  lemma InStepAtStart(start: nat)
    ensures InStep(start, Progress(start, true, [], None))
  {
  }

  lemma StepKeepsInStep(start: nat, p: Progress, received: Option<Envelope>)
    requires InStep(start, p)
    ensures InStep(start, Step(p, received))
  {
    if received.Some? && Decide(p.current, p.recovering, received.value).Apply? {
      ApplyKeepsInStep(start, p, received.value);
    }
    hide Rising, Stepwise;
  }

  lemma {:induction false} ConsumedKeepsInStep(start: nat, p: Progress, received: seq<Option<Envelope>>)
    requires InStep(start, p)
    ensures InStep(start, Consumed(p, received))
  {
    hide InStep, Step;
    if received != [] {
      ConsumedKeepsInStep(start, p, received[..|received| - 1]);
      StepKeepsInStep(start, Consumed(p, received[..|received| - 1]), received[|received| - 1]);
    }
  }

  /** Over any number of sessions with any streams whatever, the applied versions rise strictly and
      each change outside the RECOVER tier follows its predecessor directly. */
  lemma {:induction false} SessionsInStep(start: nat, sessions: seq<Stream>)
    ensures InStep(start, AfterSessions(start, sessions))
  {
    hide Consumed, Rising, Stepwise;
    InStepAtStart(start);
    if sessions != [] {
      var before, last := AfterSessions(start, sessions[..|sessions| - 1]), sessions[|sessions| - 1];
      SessionsInStep(start, sessions[..|sessions| - 1]);
      ConsumedKeepsInStep(start, Progress(before.current, true, before.applied, None), last.received);
    }
  }

  /** An empty message changes nothing, wherever it arrives. */
  lemma {:induction false} EmptyIsSkipped(p: Progress, a: seq<Option<Envelope>>, b: seq<Option<Envelope>>)
    ensures Consumed(p, a + [None] + b) == Consumed(p, a + b)
  {
    if b == [] {
      ConsumedOneMore(p, a, None);
      assert a + [None] + b == a + [None] && a + b == a;
      hide Consumed;
    } else {
      var front, last := b[..|b| - 1], b[|b| - 1];
      EmptyIsSkipped(p, a, front);
      ConsumedOneMore(p, a + [None] + front, last);
      ConsumedOneMore(p, a + front, last);
      assert a + [None] + b == a + [None] + front + [last] && a + b == a + front + [last];
      hide Consumed;
    }
  }

  /** The recovery phase lasts until the first message that is not in the RECOVER tier. */
  lemma {:induction false} RecoveringIff(p: Progress, received: seq<Option<Envelope>>)
    requires p.error.None? && Consumed(p, received).error.None?
    ensures Consumed(p, received).recovering
       <==> p.recovering && forall r :: r in received && r.Some? ==> r.value.tier.Recover?
  {
    if received != [] {
      hide Decide, ApplyError;
      var front, last := received[..|received| - 1], received[|received| - 1];
      assert received == front + [last];
      RecoveringIff(p, front);
    }
  }

  /** After any other message a RECOVER message ends the session, and is not applied. */
  lemma LateRecoverStops(p: Progress, received: seq<Option<Envelope>>, change: Envelope)
    requires p.error.None? && Consumed(p, received).error.None? && change.tier.Recover?
    requires exists r :: r in received && r.Some? && !r.value.tier.Recover?
    ensures Consumed(p, received + [Some(change)]) == Consumed(p, received).(error := Some(RecoverAfterNormal))
  {
    RecoveringIff(p, received);
    ConsumedOneMore(p, received, Some(change));
    hide Consumed;
  }

  function Delivered(changes: seq<Envelope>): seq<Option<Envelope>> {
    seq(|changes|, i requires 0 <= i < |changes| => Some(changes[i]))
  }

  /** A backlog as the master sends it to an agent at `current`: RECOVER changes, ascending and past
      the cursor, each of which can be applied. */
  ghost predicate IsBacklog(current: nat, backlog: seq<Envelope>) {
    && (forall i :: 0 <= i < |backlog| ==>
          && backlog[i].tier.Recover? && backlog[i].version > current
          && backlog[i].hostname != "" && backlog[i].bin != [] && !backlog[i].kind.Unspecified?)
    && Rising(backlog)
  }

  lemma RecoverIsApplied(p: Progress, change: Envelope)
    requires p.recovering && p.error.None? && IsBacklog(p.current, [change])
    ensures Step(p, Some(change)) == p.(current := change.version, applied := p.applied + [change])
  {
    assert [change][0] == change;
  }

  lemma BacklogFront(current: nat, backlog: seq<Envelope>)
    requires IsBacklog(current, backlog) && backlog != []
    ensures var n := |backlog| - 1;
            && IsBacklog(current, backlog[..n])
            && IsBacklog(Before(current, backlog[..n], n), [backlog[n]])
            && backlog == backlog[..n] + [backlog[n]]
            && Delivered(backlog) == Delivered(backlog[..n]) + [Some(backlog[n])]
  {
  }

  lemma ConsumedOneMore(p: Progress, received: seq<Option<Envelope>>, next: Option<Envelope>)
    ensures Consumed(p, received + [next]) == Step(Consumed(p, received), next)
  {
    assert (received + [next])[..|received|] == received;
    hide Step;
  }

  /** A session that brings a backlog applies all of it and leaves the cursor at its last version. */
  lemma {:induction false} BacklogIsApplied(p: Progress, backlog: seq<Envelope>)
    requires p.recovering && p.error.None? && IsBacklog(p.current, backlog)
    ensures Consumed(p, Delivered(backlog))
         == p.(current := Before(p.current, backlog, |backlog|), applied := p.applied + backlog)
  {
    if backlog == [] {
      assert p.applied + backlog == p.applied;
    } else {
      hide Consumed, IsBacklog, Step, Delivered;
      var n := |backlog| - 1;
      BacklogFront(p.current, backlog);
      BacklogIsApplied(p, backlog[..n]);
      ConsumedOneMore(p, Delivered(backlog[..n]), Some(backlog[n]));
      RecoverIsApplied(Consumed(p, Delivered(backlog[..n])), backlog[n]);
      assert p.applied + backlog == p.applied + backlog[..n] + [backlog[n]];
    }
  }

  /** Such a session ends in the error of the receive that follows the backlog. */
  lemma BacklogSession(current: nat, applied: seq<Envelope>, backlog: seq<Envelope>, ending: StreamError)
    requires IsBacklog(current, backlog) && backlog != []
    ensures Session(current, applied, Stream(Delivered(backlog), ending))
         == Progress(backlog[|backlog| - 1].version, true, applied + backlog, Some(ending))
  {
    BacklogIsApplied(Progress(current, true, applied, None), backlog);
    hide Consumed, IsBacklog, Delivered;
  }
}
