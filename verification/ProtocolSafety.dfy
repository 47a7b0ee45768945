/** Exactly which states of the master are safe: from which, however the publishes in flight are
    completed, one reconnect levels every agent that is right up to its cursor. And exactly which
    steps keep it so. */
module ProtocolSafety {
  import opened Events
  import opened WalLog
  import opened Protocol
  import opened ProtocolBasics
  import opened ProtocolAgreement
  import opened ProtocolConvergence

  // ---------------------------------------------------------------------------------------------
  // Completions

  /** Steps that only complete publishes in flight. */
  ghost predicate Completing(steps: seq<Step>) {
    forall i :: 0 <= i < |steps| ==> steps[i].Write? || steps[i].Append?
  }

  function MasterExec(canon: Canon, m: Master, steps: seq<Step>): Master {
    if steps == [] then m else NextMaster(canon, MasterExec(canon, m, steps[..|steps| - 1]), steps[|steps| - 1])
  }

  /** The log has room for what is in flight. */
  predicate Room(m: Master) {
    |m.log| + |m.inflight| < MAX_INDEX
  }

  /** However the publishes in flight are completed, one reconnect levels every agent that is right. */
  ghost predicate Safe(canon: Canon, m: Master) {
    forall steps :: Completing(steps) && MasterExec(canon, m, steps).inflight == [] ==>
      LevelsAll(canon, MasterExec(canon, m, steps))
  }

  ghost predicate LevelsAll(canon: Canon, m: Master) {
    forall agent :: Right(canon, m, agent) ==> Level(m, CaughtUp(canon, m, agent))
  }

  /** The state itself: every path settles, and every torn newest version has a successor in flight. */
  ghost predicate AllSettle(canon: Canon, m: Master) {
    forall path :: Settles(canon, m, path) && MendedAt(canon, m, path)
  }

  lemma {:induction false} MasterExecConcat(canon: Canon, m: Master, s: seq<Step>, t: seq<Step>)
    ensures MasterExec(canon, m, s + t) == MasterExec(canon, MasterExec(canon, m, s), t)
  {
    hide NextMaster;
    if t == [] {
      assert s + t == s;
    } else {
      assert (s + t)[..|s + t| - 1] == s + t[..|t| - 1];
      MasterExecConcat(canon, m, s, t[..|t| - 1]);
    }
  }

  lemma MasterExecOne(canon: Canon, m: Master, step: Step)
    ensures MasterExec(canon, m, [step]) == NextMaster(canon, m, step)
  {
    hide NextMaster;
    assert [step][..0] == [];
  }

  lemma CompletingConcat(s: seq<Step>, t: seq<Step>)
    requires Completing(s) && Completing(t)
    ensures Completing(s + t)
  {
  }

  // ---------------------------------------------------------------------------------------------
  // What completing keeps

  ghost predicate NoConflict(canon: Canon, puts: seq<Put>, path: StorePath) {
    forall a, b :: a in puts && b in puts && OnPath(canon, a, path) && OnPath(canon, b, path) ==> a.pub.bin == b.pub.bin
  }

  lemma SettledHasNoConflict(canon: Canon, m: Master, path: StorePath)
    requires Settles(canon, m, path)
    ensures NoConflict(canon, m.inflight, path)
  {
    hide Mends, Newest;
  }

  lemma NoConflictSame(canon: Canon, puts: seq<Put>, path: StorePath, put: Put)
    requires NoConflict(canon, puts, path) && put in puts && OnPath(canon, put, path)
    ensures SameBytes(canon, puts, path, put.pub.bin)
  {
  }

  /** One write or append, where the publishes of the path do not conflict, changes nothing about
      whether the path settles. */
  lemma CompletingStep(canon: Canon, m: Master, step: Step, path: StorePath)
    requires MasterBasic(canon, m) && NoConflict(canon, m.inflight, path) && (step.Write? || step.Append?)
    ensures NoConflict(canon, NextMaster(canon, m, step).inflight, path)
    ensures Settles(canon, NextMaster(canon, m, step), path) <==> Settles(canon, m, path)
  {
    var m' := NextMaster(canon, m, step);
    StepConflicts(canon, m, step, path);
    if Elsewhere(canon, m, step, path) {
      ElsewhereIsSame(canon, m, step, path);
      SameAtAgrees(canon, m, m', path);
    } else if step.Write? {
      hide Settles, Written, NoConflict, WalFits;
      WriteKeepsPath(canon, m, step.i, step.n, path);
    } else if Complete(m.inflight[step.i]) && |m.log| + 1 < MAX_INDEX {
      hide Settles, WalFits, Logged;
      NoConflictSame(canon, m.inflight, path, m.inflight[step.i]);
      AppendIff(canon, m, step.i, path);
    }
  }

  lemma StepConflicts(canon: Canon, m: Master, step: Step, path: StorePath)
    requires MasterBasic(canon, m) && NoConflict(canon, m.inflight, path) && (step.Write? || step.Append?)
    ensures NoConflict(canon, NextMaster(canon, m, step).inflight, path)
  {
    hide WalFits, Appended, FindOnTop, WriteAt;
    if step.i < |m.inflight| {
      if step.Write? {
        WrittenIs(canon, m, step.i, step.n);
        UpdateMembers(m.inflight, step.i, NextMaster(canon, m, step).inflight[step.i]);
      } else {
        WithoutMembers(m.inflight, step.i);
      }
    }
  }

  lemma {:induction false} CompletingIff(canon: Canon, m: Master, steps: seq<Step>, path: StorePath)
    requires MasterBasic(canon, m) && NoConflict(canon, m.inflight, path) && Completing(steps)
    ensures MasterBasic(canon, MasterExec(canon, m, steps))
    ensures NoConflict(canon, MasterExec(canon, m, steps).inflight, path)
    ensures Settles(canon, MasterExec(canon, m, steps), path) <==> Settles(canon, m, path)
  {
    if steps != [] {
      var before := MasterExec(canon, m, steps[..|steps| - 1]);
      CompletingIff(canon, m, steps[..|steps| - 1], path);
      hide MasterBasic, Settles, NoConflict, NextMaster;
      MasterKeepsBasic(canon, before, steps[|steps| - 1]);
      CompletingStep(canon, before, steps[|steps| - 1], path);
    }
  }

  /** Completing tears nothing, and brings a newer version of exactly the paths in flight. */
  ghost predicate Brought(canon: Canon, m: Master, after: Master, path: StorePath) {
    && after.torn == m.torn && |m.log| <= |after.log| && after.log[..|m.log|] == m.log
    && (Busy(canon, m.inflight, path) ==>
          Busy(canon, after.inflight, path) || Newest(canon, after.log, path) > |m.log|)
    && (!Busy(canon, m.inflight, path) ==>
          !Busy(canon, after.inflight, path) && Newest(canon, after.log, path) == Newest(canon, m.log, path))
  }

  lemma BroughtStep(canon: Canon, start: Master, m: Master, step: Step, path: StorePath)
    requires MasterBasic(canon, m) && Brought(canon, start, m, path) && (step.Write? || step.Append?)
    ensures Brought(canon, start, NextMaster(canon, m, step), path)
  {
    hide NextMaster, MasterBasic, Busy, Newest;
    var m' := NextMaster(canon, m, step);
    BusyStep(canon, m, step, path);
    assert m'.log[..|start.log|] == m'.log[..|m.log|][..|start.log|];
  }

  lemma BusyStep(canon: Canon, m: Master, step: Step, path: StorePath)
    requires MasterBasic(canon, m) && (step.Write? || step.Append?)
    ensures var m' := NextMaster(canon, m, step);
            && m'.torn == m.torn && |m.log| <= |m'.log| && m'.log[..|m.log|] == m.log
            && (Busy(canon, m'.inflight, path) ==> Busy(canon, m.inflight, path))
            && (Busy(canon, m.inflight, path) ==>
                Busy(canon, m'.inflight, path) || Newest(canon, m'.log, path) > |m.log|)
            && (Newest(canon, m'.log, path) == Newest(canon, m.log, path)
                || (Busy(canon, m.inflight, path) && Newest(canon, m'.log, path) > |m.log|))
  {
    if step.i < |m.inflight| {
      PutAt(canon, m, step.i);
      if step.Write? {
        BusyWrite(canon, m, step.i, step.n, path);
      } else if Complete(m.inflight[step.i]) && |m.log| + 1 < MAX_INDEX {
        BusyAppend(canon, m, step.i, path);
      }
    }
    hide MasterBasic, Busy, Newest, Written, Logged;
  }

  lemma BusyWrite(canon: Canon, m: Master, i: nat, n: nat, path: StorePath)
    requires i < |m.inflight| && PutBasic(canon, m, m.inflight[i])
    ensures var m' := Written(canon, m, i, n);
            && m'.torn == m.torn && m'.log == m.log
            && (Busy(canon, m'.inflight, path) <==> Busy(canon, m.inflight, path))
  {
    hide WriteAt;
    var m', put := Written(canon, m, i, n), m.inflight[i];
    WrittenIs(canon, m, i, n);
    UpdateMembers(m.inflight, i, m'.inflight[i]);
    hide Written;
    assert OnPath(canon, put, path) <==> OnPath(canon, m'.inflight[i], path);
    if other :| other in m.inflight && OnPath(canon, other, path) {
      assert other == put || other in m'.inflight;
    }
    if other :| other in m'.inflight && OnPath(canon, other, path) {
      assert other == m'.inflight[i] || other in m.inflight;
      assert put in m.inflight;
    }
  }

  lemma BusyAppend(canon: Canon, m: Master, i: nat, path: StorePath)
    requires i < |m.inflight|
    ensures var m' := Logged(m, i);
            && m'.torn == m.torn && |m.log| <= |m'.log| && m'.log[..|m.log|] == m.log
            && (Busy(canon, m'.inflight, path) ==> Busy(canon, m.inflight, path))
            && (Busy(canon, m.inflight, path) ==>
                Busy(canon, m'.inflight, path) || Newest(canon, m'.log, path) > |m.log|)
            && (Newest(canon, m'.log, path) == Newest(canon, m.log, path)
                || (Busy(canon, m.inflight, path) && Newest(canon, m'.log, path) > |m.log|))
  {
    hide Appended, Without, Newest;
    WithoutMembers(m.inflight, i);
    NewestGrows(canon, m.log, m.inflight[i].pub, path);
    assert OnPath(canon, m.inflight[i], path) ==> Busy(canon, m.inflight, path);
  }

  lemma {:induction false} CompletingBrings(canon: Canon, m: Master, steps: seq<Step>, path: StorePath)
    requires MasterBasic(canon, m) && Completing(steps)
    ensures MasterBasic(canon, MasterExec(canon, m, steps))
    ensures Brought(canon, m, MasterExec(canon, m, steps), path)
  {
    if steps != [] {
      var before := MasterExec(canon, m, steps[..|steps| - 1]);
      CompletingBrings(canon, m, steps[..|steps| - 1], path);
      hide MasterBasic, Brought, NextMaster;
      MasterKeepsBasic(canon, before, steps[|steps| - 1]);
      BroughtStep(canon, m, before, steps[|steps| - 1], path);
    }
  }

  // ---------------------------------------------------------------------------------------------
  // A completion that appends a chosen publish last

  function WriteAll(m: Master, k: nat): seq<Step>
    requires k <= |m.inflight|
  {
    if k == 0 then [] else WriteAll(m, k - 1) + [Write(k - 1, |m.inflight[k - 1].pub.bin|)]
  }

  /** The first k publishes in flight are written; the rest are as they were. */
  ghost predicate WrittenUpTo(m: Master, after: Master, k: nat) {
    && after == m.(store := after.store, inflight := after.inflight)
    && k <= |m.inflight| == |after.inflight|
    && (forall j :: 0 <= j < |m.inflight| ==> after.inflight[j].pub == m.inflight[j].pub)
    && (forall j :: 0 <= j < k ==> Complete(after.inflight[j]))
    && (forall j :: k <= j < |m.inflight| ==> after.inflight[j] == m.inflight[j])
  }

  lemma {:induction false} WriteAllIs(canon: Canon, m: Master, k: nat)
    requires MasterBasic(canon, m) && k <= |m.inflight|
    ensures Completing(WriteAll(m, k)) && MasterBasic(canon, MasterExec(canon, m, WriteAll(m, k)))
    ensures WrittenUpTo(m, MasterExec(canon, m, WriteAll(m, k)), k)
  {
    hide *;
    if k == 0 {
      NothingWritten(canon, m);
    } else {
      var before := MasterExec(canon, m, WriteAll(m, k - 1));
      var step := Write(k - 1, |m.inflight[k - 1].pub.bin|);
      WriteAllIs(canon, m, k - 1);
      WriteAllNext(m, k);
      MasterExecConcat(canon, m, WriteAll(m, k - 1), [step]);
      MasterExecOne(canon, before, step);
      CompletingConcat(WriteAll(m, k - 1), [step]);
      MasterKeepsBasic(canon, before, step);
      WriteOne(canon, m, before, k - 1);
    }
  }

  lemma NothingWritten(canon: Canon, m: Master)
    ensures Completing(WriteAll(m, 0)) && MasterExec(canon, m, WriteAll(m, 0)) == m && WrittenUpTo(m, m, 0)
  {
    hide NextMaster, Complete;
  }

  /** The last publish to be written leaves at least as many bytes as it has. */
  lemma LastWritten(canon: Canon, m: Master)
    requires MasterBasic(canon, m) && m.inflight != []
    requires m.inflight[|m.inflight| - 1].offset < |m.inflight[|m.inflight| - 1].pub.bin|
    ensures var put := m.inflight[|m.inflight| - 1];
            |Stored(MasterExec(canon, m, WriteAll(m, |m.inflight|)), canon(put.pub.key))| >= |put.pub.bin|
  {
    var k := |m.inflight| - 1;
    hide MasterBasic, WriteAll, MasterExec, Completing, WrittenUpTo;
    var before, step := MasterExec(canon, m, WriteAll(m, k)), Write(k, |m.inflight[k].pub.bin|);
    WriteAllIs(canon, m, k);
    WriteAllNext(m, k + 1);
    MasterExecConcat(canon, m, WriteAll(m, k), [step]);
    MasterExecOne(canon, before, step);
    StillToWrite(m, before, k);
    PutAt(canon, before, k);
    WriteWhole(canon, before, k);
  }

  lemma StillToWrite(m: Master, before: Master, k: nat)
    requires k < |m.inflight| && WrittenUpTo(m, before, k)
    ensures |before.inflight| == |m.inflight| && before.inflight[k] == m.inflight[k]
  {
    hide Complete;
  }

  lemma WriteWhole(canon: Canon, m: Master, k: nat)
    requires k < |m.inflight| && PutBasic(canon, m, m.inflight[k])
    requires m.inflight[k].offset < |m.inflight[k].pub.bin|
    ensures var put := m.inflight[k];
            |Stored(NextMaster(canon, m, Write(k, |put.pub.bin|)), canon(put.pub.key))| >= |put.pub.bin|
  {
    var put := m.inflight[k];
    WrittenIs(canon, m, k, |put.pub.bin|);
    Longer(m.store[canon(put.pub.key)], put.offset, put.pub.bin[put.offset..]);
    hide WriteAt, Written;
  }

  lemma WriteAllNext(m: Master, k: nat)
    requires 0 < k <= |m.inflight|
    ensures WriteAll(m, k) == WriteAll(m, k - 1) + [Write(k - 1, |m.inflight[k - 1].pub.bin|)]
    ensures Completing([Write(k - 1, |m.inflight[k - 1].pub.bin|)])
    ensures !OfAgent(Write(k - 1, |m.inflight[k - 1].pub.bin|))
  {
  }

  lemma WriteOne(canon: Canon, m: Master, before: Master, k: nat)
    requires k < |m.inflight| && WrittenUpTo(m, before, k) && MasterBasic(canon, before)
    ensures WrittenUpTo(m, NextMaster(canon, before, Write(k, |m.inflight[k].pub.bin|)), k + 1)
  {
    hide MasterBasic, Written, Complete;
    PutAt(canon, before, k);
    WrittenIs(canon, before, k, |m.inflight[k].pub.bin|);
  }

  lemma PutAt(canon: Canon, m: Master, i: nat)
    requires MasterBasic(canon, m) && i < |m.inflight|
    ensures PutBasic(canon, m, m.inflight[i])
  {
    hide PutBasic, WalFits;
  }

  function Times(step: Step, k: nat): seq<Step> {
    if k == 0 then [] else Times(step, k - 1) + [step]
  }

  ghost predicate AllComplete(puts: seq<Put>) {
    forall j :: 0 <= j < |puts| ==> Complete(puts[j])
  }

  function PubsOf(puts: seq<Put>): seq<Pub> {
    seq(|puts|, j requires 0 <= j < |puts| => puts[j].pub)
  }

  /** What appending the publishes at places i to i + k leaves. */
  ghost predicate Took(m: Master, after: Master, i: nat, k: nat)
    requires i + k <= |m.inflight|
  {
    && after.store == m.store && after.inflight == m.inflight[..i] + m.inflight[i + k..]
    && after.log == m.log + PubsOf(m.inflight[i..i + k])
    && AllComplete(after.inflight) && Room(after)
  }

  /** k appends at place i take k publishes in order. */
  lemma {:induction false} AppendsAre(canon: Canon, m: Master, i: nat, k: nat)
    requires AllComplete(m.inflight) && i + k <= |m.inflight| && Room(m)
    ensures Completing(Times(Append(i), k)) && Took(m, MasterExec(canon, m, Times(Append(i), k)), i, k)
  {
    hide *;
    if k == 0 {
      TookNone(canon, m, i);
    } else {
      AppendsAre(canon, m, i, k - 1);
      TimesNext(Append(i), k);
      MasterExecConcat(canon, m, Times(Append(i), k - 1), [Append(i)]);
      MasterExecOne(canon, MasterExec(canon, m, Times(Append(i), k - 1)), Append(i));
      CompletingConcat(Times(Append(i), k - 1), [Append(i)]);
      AppendOne(canon, m, MasterExec(canon, m, Times(Append(i), k - 1)), i, k - 1);
    }
  }

  lemma TookNone(canon: Canon, m: Master, i: nat)
    requires AllComplete(m.inflight) && i <= |m.inflight| && Room(m)
    ensures Completing(Times(Append(i), 0)) && Took(m, MasterExec(canon, m, Times(Append(i), 0)), i, 0)
  {
    hide Complete, NextMaster;
    assert m.inflight[..i] + m.inflight[i..] == m.inflight;
    assert m.log + PubsOf(m.inflight[i..i]) == m.log;
  }

  lemma TimesNext(step: Step, k: nat)
    requires k > 0
    ensures Times(step, k) == Times(step, k - 1) + [step]
    ensures step.Append? ==> Completing([step])
  {
  }

  lemma AppendOne(canon: Canon, m: Master, before: Master, i: nat, k: nat)
    requires i + k < |m.inflight| && Took(m, before, i, k) && AllComplete(m.inflight)
    ensures Took(m, NextMaster(canon, before, Append(i)), i, k + 1)
  {
    hide Appended, Complete;
    assert before.inflight[i] == m.inflight[i + k];
    assert Without(before.inflight, i) == m.inflight[..i] + m.inflight[i + k + 1..];
    assert PubsOf(m.inflight[i..i + k + 1]) == PubsOf(m.inflight[i..i + k]) + [m.inflight[i + k].pub];
  }

  function AppendLast(n: nat, last: nat): seq<Step>
    requires last < n
  {
    Times(Append(0), last) + (Times(Append(1), n - last - 1) + Times(Append(0), 1))
  }

  lemma AppendLastIs(canon: Canon, m: Master, last: nat)
    requires AllComplete(m.inflight) && last < |m.inflight| && Room(m)
    ensures Completing(AppendLast(|m.inflight|, last))
    ensures var after := MasterExec(canon, m, AppendLast(|m.inflight|, last));
            && after.store == m.store && after.inflight == []
            && |after.log| > 0 && after.log[|after.log| - 1] == m.inflight[last].pub
  {
    hide *;
    var n := |m.inflight|;
    var s, t, u := Times(Append(0), last), Times(Append(1), n - last - 1), Times(Append(0), 1);
    AppendLastParts(n, last);
    AppendsAre(canon, m, 0, last);
    var one := MasterExec(canon, m, s);
    TookFront(m, one, last);
    AppendsAre(canon, one, 1, n - last - 1);
    var two := MasterExec(canon, one, t);
    TookRest(m, one, two, last);
    AppendsAre(canon, two, 0, 1);
    MasterExecConcat(canon, m, s, t + u);
    MasterExecConcat(canon, one, t, u);
    CompletingConcat(t, u);
    CompletingConcat(s, t + u);
    TookOne(m, two, MasterExec(canon, two, u), last);
  }

  lemma AppendLastParts(n: nat, last: nat)
    requires last < n
    ensures AppendLast(n, last) == Times(Append(0), last) + (Times(Append(1), n - last - 1) + Times(Append(0), 1))
  {
  }

  lemma TookFront(m: Master, one: Master, last: nat)
    requires last < |m.inflight| && Took(m, one, 0, last)
    ensures one.store == m.store && one.inflight == m.inflight[last..] && AllComplete(one.inflight) && Room(one)
  {
    hide AllComplete;
  }

  lemma TookRest(m: Master, one: Master, two: Master, last: nat)
    requires last < |m.inflight| && one.store == m.store && one.inflight == m.inflight[last..]
    requires Took(one, two, 1, |m.inflight| - last - 1)
    ensures two.store == m.store && two.inflight == [m.inflight[last]] && AllComplete(two.inflight) && Room(two)
  {
    hide AllComplete;
  }

  lemma TookOne(m: Master, two: Master, after: Master, last: nat)
    requires last < |m.inflight| && two.store == m.store && two.inflight == [m.inflight[last]] && Took(two, after, 0, 1)
    ensures after.store == m.store && after.inflight == []
    ensures |after.log| > 0 && after.log[|after.log| - 1] == m.inflight[last].pub
  {
    hide AllComplete;
    assert PubsOf(two.inflight[0..1]) == [m.inflight[last].pub];
  }

  /** Every publish is written, then all are appended, the chosen one last. */
  function Completion(m: Master, last: nat): seq<Step>
    requires m.inflight != [] ==> last < |m.inflight|
  {
    if m.inflight == [] then [] else WriteAll(m, |m.inflight|) + AppendLast(|m.inflight|, last)
  }

  lemma CompletionIs(canon: Canon, m: Master, last: nat)
    requires MasterBasic(canon, m) && Room(m) && (m.inflight != [] ==> last < |m.inflight|)
    ensures Completing(Completion(m, last))
    ensures var after := MasterExec(canon, m, Completion(m, last));
            && after.inflight == []
            && (m.inflight != [] ==>
                  && after.store == MasterExec(canon, m, WriteAll(m, |m.inflight|)).store
                  && |after.log| > 0 && after.log[|after.log| - 1] == m.inflight[last].pub)
  {
    hide *;
    NothingToComplete(canon, m, last);
    if m.inflight != [] {
      var written := MasterExec(canon, m, WriteAll(m, |m.inflight|));
      WriteAllIs(canon, m, |m.inflight|);
      AllWritten(m, written);
      CompletionParts(m, last);
      AppendLastIs(canon, written, last);
      MasterExecConcat(canon, m, WriteAll(m, |m.inflight|), AppendLast(|m.inflight|, last));
      CompletingConcat(WriteAll(m, |m.inflight|), AppendLast(|m.inflight|, last));
    }
  }

  lemma NothingToComplete(canon: Canon, m: Master, last: nat)
    requires m.inflight != [] ==> last < |m.inflight|
    ensures m.inflight == [] ==>
              Completing(Completion(m, last)) && MasterExec(canon, m, Completion(m, last)).inflight == []
  {
    hide NextMaster;
  }

  lemma AllWritten(m: Master, written: Master)
    requires WrittenUpTo(m, written, |m.inflight|) && Room(m)
    ensures |written.inflight| == |m.inflight| && AllComplete(written.inflight) && Room(written)
    ensures forall j :: 0 <= j < |m.inflight| ==> written.inflight[j].pub == m.inflight[j].pub
  {
    hide Complete;
  }

  lemma CompletionParts(m: Master, last: nat)
    requires last < |m.inflight|
    ensures Completion(m, last) == WriteAll(m, |m.inflight|) + AppendLast(|m.inflight|, last)
  {
    hide WriteAll, AppendLast;
  }

  // ---------------------------------------------------------------------------------------------
  // Exactly when a path settles

  /** What is stored under the path is what the log says. */
  ghost predicate StoredRight(canon: Canon, m: Master, path: StorePath) {
    path in m.store ==> NewestIs(canon, m.log, path, m.store[path])
  }

  /** Where two publishes of a path in flight write different bytes, one of them appended last leaves
      other bytes stored than the log's newest. */
  lemma ConflictDiverges(canon: Canon, m: Master, i: nat, j: nat, path: StorePath) returns (steps: seq<Step>)
    requires MasterBasic(canon, m) && Room(m) && i < |m.inflight| && j < |m.inflight|
    requires OnPath(canon, m.inflight[i], path) && OnPath(canon, m.inflight[j], path)
    requires m.inflight[i].pub.bin != m.inflight[j].pub.bin
    ensures Completing(steps)
    ensures var after := MasterExec(canon, m, steps);
            && after.inflight == [] && path in after.store && Newest(canon, after.log, path) == |after.log|
            && !StoredRight(canon, after, path)
            && after.store == MasterExec(canon, m, WriteAll(m, |m.inflight|)).store
  {
    hide MasterBasic, WriteAll, MasterExec, Newest, Completion, Completing, Complete;
    var written := MasterExec(canon, m, WriteAll(m, |m.inflight|)).store;
    WriteAllIs(canon, m, |m.inflight|);
    PutAt(canon, MasterExec(canon, m, WriteAll(m, |m.inflight|)), i);
    var last := if written[path] != m.inflight[i].pub.bin then i else j;
    steps := Completion(m, last);
    CompletionIs(canon, m, last);
    LastIsNewest(canon, MasterExec(canon, m, steps).log, path);
  }

  lemma LastIsNewest(canon: Canon, log: seq<Pub>, path: StorePath)
    requires log != [] && canon(log[|log| - 1].key) == path
    ensures Newest(canon, log, path) == |log|
  {
  }

  /** A path settles exactly when every completion ends with the log's bytes stored. */
  lemma SettlesIff(canon: Canon, m: Master, path: StorePath)
    requires MasterBasic(canon, m) && Room(m)
    ensures Settles(canon, m, path) <==>
            forall steps :: Completing(steps) && MasterExec(canon, m, steps).inflight == [] ==>
              StoredRight(canon, MasterExec(canon, m, steps), path)
  {
    hide MasterBasic, Settles, MasterExec, Newest, Completing, NewestIs;
    if NoConflict(canon, m.inflight, path) {
      forall steps | Completing(steps) && MasterExec(canon, m, steps).inflight == []
        ensures Settles(canon, m, path) <==> StoredRight(canon, MasterExec(canon, m, steps), path)
      {
        CompletingIff(canon, m, steps, path);
        QuietSettles(canon, MasterExec(canon, m, steps), path);
      }
      var last := if m.inflight == [] then 0 else |m.inflight| - 1;
      CompletionIs(canon, m, last);
    } else {
      var steps := ConflictSteps(canon, m, path);
      if Settles(canon, m, path) {
        SettledHasNoConflict(canon, m, path);
      }
    }
  }

  lemma QuietSettles(canon: Canon, m: Master, path: StorePath)
    requires m.inflight == []
    ensures Settles(canon, m, path) <==> StoredRight(canon, m, path)
  {
    NoPuts(canon, path);
    SettlesIdle(canon, m, path);
    hide Settles, NewestIs;
  }

  lemma ConflictSteps(canon: Canon, m: Master, path: StorePath) returns (steps: seq<Step>)
    requires MasterBasic(canon, m) && Room(m) && !NoConflict(canon, m.inflight, path)
    ensures Completing(steps) && MasterExec(canon, m, steps).inflight == []
    ensures !StoredRight(canon, MasterExec(canon, m, steps), path)
  {
    hide MasterBasic, MasterExec, Newest, Completing;
    var a, b :| a in m.inflight && b in m.inflight && OnPath(canon, a, path) && OnPath(canon, b, path)
                && a.pub.bin != b.pub.bin;
    var i :| 0 <= i < |m.inflight| && m.inflight[i] == a;
    var j :| 0 <= j < |m.inflight| && m.inflight[j] == b;
    steps := ConflictDiverges(canon, m, i, j, path);
  }

  // ---------------------------------------------------------------------------------------------
  // Exactly when the master is safe

  lemma RightStore(canon: Canon, m: Master)
    requires MasterBasic(canon, m)
    ensures m.store == Replay(canon, m.log) <==> forall path :: StoredRight(canon, m, path)
  {
    hide Newest, Replay, WalFits;
    forall path ensures path in Replay(canon, m.log) ==> path in m.store
                ensures path in Replay(canon, m.log) <==> Newest(canon, m.log, path) > 0
                ensures path in Replay(canon, m.log) ==> NewestIs(canon, m.log, path, Replay(canon, m.log)[path]) {
      ReplayHoldsNewest(canon, m.log, path);
      if Newest(canon, m.log, path) > 0 {
        NewestIsStored(canon, m, path);
      }
    }
    if forall path :: StoredRight(canon, m, path) {
      forall path ensures path in m.store <==> path in Replay(canon, m.log)
                  ensures path in Replay(canon, m.log) ==> m.store[path] == Replay(canon, m.log)[path] {
        assert StoredRight(canon, m, path);
      }
      SameData(m.store, Replay(canon, m.log));
    }
  }

  /** The end of a completion is whole exactly when every torn newest version had a successor. */
  lemma EndIsWhole(canon: Canon, m: Master, steps: seq<Step>)
    requires MasterBasic(canon, m) && Completing(steps) && MasterExec(canon, m, steps).inflight == []
    ensures Whole(canon, MasterExec(canon, m, steps)) <==> forall path :: MendedAt(canon, m, path)
  {
    var after := MasterExec(canon, m, steps);
    forall path
      ensures (Newest(canon, after.log, path) > 0 ==> Newest(canon, after.log, path) !in after.torn)
         <==> MendedAt(canon, m, path)
    {
      CompletingBrings(canon, m, steps, path);
      EndMended(canon, m, after, path);
    }
    hide MasterBasic, MasterExec, Newest, Busy, MendedAt;
  }

  lemma EndMended(canon: Canon, m: Master, after: Master, path: StorePath)
    requires MasterBasic(canon, m) && Brought(canon, m, after, path) && after.inflight == []
    ensures (Newest(canon, after.log, path) > 0 ==> Newest(canon, after.log, path) !in after.torn)
       <==> MendedAt(canon, m, path)
  {
    TornInRange(canon, m);
    NoPuts(canon, path);
    hide MasterBasic, Newest, Busy;
  }

  lemma EndIsBasic(canon: Canon, m: Master, steps: seq<Step>)
    requires MasterBasic(canon, m) && Completing(steps)
    ensures MasterBasic(canon, MasterExec(canon, m, steps))
  {
    CompletingBrings(canon, m, steps, "");
  }

  /** The master is safe exactly when every path settles and nothing newest stays torn. */
  lemma SafeIff(canon: Canon, m: Master)
    requires MasterBasic(canon, m) && Room(m)
    ensures Safe(canon, m) <==> AllSettle(canon, m)
  {
    hide MasterBasic, Settles, MasterExec, MendedAt, Whole, Replay, LevelsAll, StoredRight, Completing, AllSettle, Safe;
    forall steps | Completing(steps) && MasterExec(canon, m, steps).inflight == []
      ensures LevelsAll(canon, MasterExec(canon, m, steps)) <==>
              AllStoredRight(canon, MasterExec(canon, m, steps)) && AllMended(canon, m)
    {
      var after := MasterExec(canon, m, steps);
      EndIsBasic(canon, m, steps);
      LevelsAllIff(canon, after);
      RightStore(canon, after);
      EndIsWhole(canon, m, steps);
    }
    forall path ensures Settles(canon, m, path) <==> EndsRight(canon, m, path) {
      SettlesIff(canon, m, path);
    }
    CompletionIs(canon, m, if m.inflight == [] then 0 else |m.inflight| - 1);
    var some := Completion(m, if m.inflight == [] then 0 else |m.inflight| - 1);
    if Safe(canon, m) {
      SafeIsSound(canon, m, some);
    }
    if AllSettle(canon, m) {
      SoundIsSafe(canon, m);
    }
  }

  /** What the end of each completion says about this state. */
  ghost predicate EndsTell(canon: Canon, m: Master) {
    && (forall steps :: Completing(steps) && MasterExec(canon, m, steps).inflight == [] ==>
          (LevelsAll(canon, MasterExec(canon, m, steps)) <==>
             AllStoredRight(canon, MasterExec(canon, m, steps)) && AllMended(canon, m)))
    && (forall path :: Settles(canon, m, path) <==> EndsRight(canon, m, path))
  }

  ghost predicate AllStoredRight(canon: Canon, m: Master) {
    forall path :: StoredRight(canon, m, path)
  }

  ghost predicate AllMended(canon: Canon, m: Master) {
    forall path :: MendedAt(canon, m, path)
  }

  ghost predicate EndsRight(canon: Canon, m: Master, path: StorePath) {
    forall steps :: Completing(steps) && MasterExec(canon, m, steps).inflight == [] ==>
      StoredRight(canon, MasterExec(canon, m, steps), path)
  }

  lemma SafeIsSound(canon: Canon, m: Master, some: seq<Step>)
    requires Safe(canon, m) && EndsTell(canon, m)
    requires Completing(some) && MasterExec(canon, m, some).inflight == []
    ensures AllSettle(canon, m)
  {
    hide Settles, MasterExec, MendedAt, LevelsAll, StoredRight, Completing;
    assert AllMended(canon, m) by { assert LevelsAll(canon, MasterExec(canon, m, some)); }
    forall path ensures Settles(canon, m, path) {
      forall steps | Completing(steps) && MasterExec(canon, m, steps).inflight == []
        ensures StoredRight(canon, MasterExec(canon, m, steps), path)
      {
        assert LevelsAll(canon, MasterExec(canon, m, steps));
      }
      assert EndsRight(canon, m, path);
    }
  }

  lemma SoundIsSafe(canon: Canon, m: Master)
    requires AllSettle(canon, m) && EndsTell(canon, m)
    ensures Safe(canon, m)
  {
    hide Settles, MasterExec, MendedAt, LevelsAll, StoredRight, Completing;
    forall steps | Completing(steps) && MasterExec(canon, m, steps).inflight == []
      ensures LevelsAll(canon, MasterExec(canon, m, steps))
    {
      forall path ensures StoredRight(canon, MasterExec(canon, m, steps), path) {
        assert Settles(canon, m, path);
        assert EndsRight(canon, m, path);
      }
    }
  }

  lemma LevelsAllIff(canon: Canon, m: Master)
    requires MasterBasic(canon, m)
    ensures LevelsAll(canon, m) <==> m.store == Replay(canon, m.log) && Whole(canon, m)
  {
    CatchUpLevelsIff(canon, m);
    hide MasterBasic, Right, Level, CaughtUp, Replay, Whole;
  }

  /** Every disciplined run ends safe. */
  lemma SerialRunsAreSafe(canon: Canon, ids: set<AgentId>, steps: seq<Step>)
    requires AllSerial(canon, Init(ids), steps) && Room(Exec(canon, Init(ids), steps).master)
    ensures Safe(canon, Exec(canon, Init(ids), steps).master)
  {
    hide *;
    var c := Exec(canon, Init(ids), steps);
    AllSerialAgree(canon, ids, steps);
    AgreeingIsSound(canon, c);
    SafeIff(canon, c.master);
  }

  lemma AgreeingIsSound(canon: Canon, c: Cluster)
    requires AllAgree(canon, c)
    ensures MasterBasic(canon, c.master) && AllSettle(canon, c.master)
  {
    BasicParts(canon, c);
    hide Basic, Settles, MendedAt, AgentAgrees, Part;
    forall path ensures Settles(canon, c.master, path) && MendedAt(canon, c.master, path) {
      assert Agreeing(canon, c, path);
    }
  }

  // ---------------------------------------------------------------------------------------------
  // Exactly which agents are safe

  /** What the agent holds of the paths that are not in flight is right up to its cursor. */
  ghost predicate RightWhereIdle(canon: Canon, m: Master, agent: Agent) {
    forall path :: !Busy(canon, m.inflight, path) ==> RightAt(canon, m, agent, path)
  }

  ghost predicate EndsLevel(canon: Canon, m: Master, agent: Agent) {
    forall steps :: Completing(steps) && MasterExec(canon, m, steps).inflight == [] ==>
      Level(MasterExec(canon, m, steps), CaughtUp(canon, MasterExec(canon, m, steps), agent))
  }

  /** With a safe master, one agent ends level after every completion and a reconnect exactly when what
      it holds of the idle paths is right up to its cursor: whatever it read of an object that was
      being written does no harm as long as that publish, or another of its path, is completed. */
  lemma AgentSafeIff(canon: Canon, m: Master, agent: Agent)
    requires MasterBasic(canon, m) && Room(m) && Safe(canon, m) && agent.cursor <= |m.log|
    ensures EndsLevel(canon, m, agent) <==> RightWhereIdle(canon, m, agent)
  {
    hide MasterBasic, Completing, MasterExec, Safe, Level, CaughtUp, RightWhereIdle;
    forall steps | Completing(steps) && MasterExec(canon, m, steps).inflight == []
      ensures Level(MasterExec(canon, m, steps), CaughtUp(canon, MasterExec(canon, m, steps), agent))
         <==> RightWhereIdle(canon, m, agent)
    {
      EndLevelIff(canon, m, steps, agent);
    }
    CompletionIs(canon, m, if m.inflight == [] then 0 else |m.inflight| - 1);
  }

  lemma EndLevelIff(canon: Canon, m: Master, steps: seq<Step>, agent: Agent)
    requires MasterBasic(canon, m) && Safe(canon, m) && agent.cursor <= |m.log|
    requires Completing(steps) && MasterExec(canon, m, steps).inflight == []
    ensures Level(MasterExec(canon, m, steps), CaughtUp(canon, MasterExec(canon, m, steps), agent))
       <==> RightWhereIdle(canon, m, agent)
  {
    hide MasterBasic, Completing, MasterExec, Level, CaughtUp, Replay, Whole, RightAt, Busy;
    var after := MasterExec(canon, m, steps);
    EndIsBasic(canon, m, steps);
    assert LevelsAll(canon, after);
    LevelsAllIff(canon, after);
    CompletingBrings(canon, m, steps, "");
    LevelIsRight(canon, after, agent);
    forall path ensures RightAt(canon, after, agent, path) <==>
                        (Busy(canon, m.inflight, path) || RightAt(canon, m, agent, path)) {
      CompletingBrings(canon, m, steps, path);
      NoPuts(canon, path);
      RightLater(canon, m, after, agent, path);
    }
  }

  lemma RightLater(canon: Canon, m: Master, after: Master, agent: Agent, path: StorePath)
    requires Brought(canon, m, after, path) && !Busy(canon, after.inflight, path) && agent.cursor <= |m.log|
    ensures RightAt(canon, after, agent, path) <==> Busy(canon, m.inflight, path) || RightAt(canon, m, agent, path)
  {
    hide Busy, Newest;
    assert forall k :: 0 <= k < |m.log| ==> after.log[k] == after.log[..|m.log|][k];
  }

  /** With a master as the log says, a catch-up levels exactly the agents that are right. */
  lemma LevelIsRight(canon: Canon, m: Master, agent: Agent)
    requires MasterBasic(canon, m) && m.store == Replay(canon, m.log) && Whole(canon, m) && agent.cursor <= |m.log|
    ensures Level(m, CaughtUp(canon, m, agent)) <==> Right(canon, m, agent)
  {
    hide MasterBasic, CaughtUp, Replay, Whole, Newest, Touches, Backlog, Loadable;
    if Right(canon, m, agent) {
      LevelsOne(canon, m, agent);
    }
    if Level(m, CaughtUp(canon, m, agent)) {
      ReplayLoads(canon, m, agent.cursor);
      forall path ensures RightAt(canon, m, agent, path) {
        CaughtUpAt(canon, m, agent, path);
        ReplayHoldsNewest(canon, m.log, path);
      }
    }
  }

  // ---------------------------------------------------------------------------------------------
  // Exactly which steps keep it safe

  /** Another path is as safe after the step as before it. */
  lemma OtherPaths(canon: Canon, m: Master, step: Step, path: StorePath)
    requires MasterBasic(canon, m) && !OfAgent(step) && Elsewhere(canon, m, step, path)
    ensures Settles(canon, NextMaster(canon, m, step), path) <==> Settles(canon, m, path)
    ensures MendedAt(canon, NextMaster(canon, m, step), path) <==> MendedAt(canon, m, path)
  {
    var m' := NextMaster(canon, m, step);
    ElsewhereIsSame(canon, m, step, path);
    SameAtAgrees(canon, m, m', path);
    SamePutsSame(canon, m.inflight, m'.inflight, path);
    hide MasterBasic, FindOnTop, Appended, Mark, WriteAt, Settles, Newest, Busy;
    if step.Fail? && step.i < |m.inflight| {
      TearsElsewhere(canon, m, step.i, step.tears, path);
    }
  }

  /** A publish may start exactly when those of its path in flight write the same bytes. */
  lemma CreateSafeIff(canon: Canon, m: Master, p: Pub)
    requires MasterBasic(canon, m) && |m.log| + |m.inflight| + 1 < MAX_INDEX && Safe(canon, m) && Accepted(p)
    ensures Safe(canon, NextMaster(canon, m, Create(p))) <==> SameBytes(canon, m.inflight, canon(p.key), p.bin)
  {
    var step, path := Create(p), canon(p.key);
    var m' := NextMaster(canon, m, step);
    SafeIff(canon, m);
    MasterKeepsBasic(canon, m, step);
    SafeIff(canon, m');
    CreateIff(canon, m, p);
    assert Put(p, 0) in m'.inflight && OnPath(canon, Put(p, 0), path) by {
      assert m'.inflight[|m.inflight|] == Put(p, 0);
    }
    hide MasterBasic, Settles, SameBytes, NextMaster, Newest;
    forall other | other != path
      ensures Settles(canon, m', other) <==> Settles(canon, m, other)
      ensures MendedAt(canon, m', other) <==> MendedAt(canon, m, other)
    {
      OtherPaths(canon, m, step, other);
    }
  }

  /** A publish may give up exactly when what it leaves behind is right: another publish of the path
      remains and mends the object, or the object holds the newest version's bytes and that
      version is not torn. */
  ghost predicate LeftRight(canon: Canon, m: Master, path: StorePath) {
    if Busy(canon, m.inflight, path) then Settles(canon, m, path)
    else NewestIs(canon, m.log, path, Stored(m, path)) && Newest(canon, m.log, path) !in m.torn
  }

  lemma LeftRightIff(canon: Canon, m: Master, path: StorePath)
    requires path in m.store
    ensures LeftRight(canon, m, path) <==> Settles(canon, m, path) && MendedAt(canon, m, path)
  {
    if !Busy(canon, m.inflight, path) {
      SettlesIdle(canon, m, path);
    }
    hide Settles, Newest;
  }

  lemma FailSafeIff(canon: Canon, m: Master, i: nat, tears: bool)
    requires MasterBasic(canon, m) && Room(m) && Safe(canon, m) && i < |m.inflight|
    ensures Safe(canon, NextMaster(canon, m, Fail(i, tears))) <==>
            LeftRight(canon, NextMaster(canon, m, Fail(i, tears)), canon(m.inflight[i].pub.key))
  {
    var step, path := Fail(i, tears), canon(m.inflight[i].pub.key);
    var m' := NextMaster(canon, m, step);
    SafeIff(canon, m);
    MasterKeepsBasic(canon, m, step);
    PutAt(canon, m, i);
    FailShrinks(m, i, tears);
    hide MasterBasic, Settles, NextMaster, MendedAt, Safe, LeftRight, Failed;
    SafeIff(canon, m');
    LeftRightIff(canon, m', path);
    forall other | other != path
      ensures Settles(canon, m', other) <==> Settles(canon, m, other)
      ensures MendedAt(canon, m', other) <==> MendedAt(canon, m, other)
    {
      OtherPaths(canon, m, step, other);
    }
  }

  lemma FailShrinks(m: Master, i: nat, tears: bool)
    requires i < |m.inflight|
    ensures var m' := Failed(m, i, tears);
            m'.log == m.log && m'.store == m.store && |m'.inflight| == |m.inflight| - 1
  {
    hide FindOnTop, Mark;
  }

  /** The master may stop exactly when every object being written holds the bytes of its path's newest
      version, and that version is not torn. */
  lemma RestartSafeIff(canon: Canon, m: Master)
    requires MasterBasic(canon, m) && Room(m) && Safe(canon, m)
    ensures Safe(canon, NextMaster(canon, m, MasterRestart)) <==>
            forall path :: Busy(canon, m.inflight, path) ==>
              NewestIs(canon, m.log, path, Stored(m, path)) && Newest(canon, m.log, path) !in m.torn
  {
    var m' := NextMaster(canon, m, MasterRestart);
    SafeIff(canon, m);
    MasterKeepsBasic(canon, m, MasterRestart);
    SafeIff(canon, m');
    hide MasterBasic, Settles, Safe, Newest;
    forall path
      ensures Settles(canon, m', path) && MendedAt(canon, m', path) <==>
              (Busy(canon, m.inflight, path) ==>
                 NewestIs(canon, m.log, path, Stored(m, path)) && Newest(canon, m.log, path) !in m.torn)
    {
      NoPuts(canon, path);
      SettlesIdle(canon, m', path);
      assert Settles(canon, m, path) && MendedAt(canon, m, path);
      if Busy(canon, m.inflight, path) {
        BusyIsStored(canon, m, path);
      } else {
        SettlesIdle(canon, m, path);
      }
    }
  }

  lemma BusyIsStored(canon: Canon, m: Master, path: StorePath)
    requires MasterBasic(canon, m) && Busy(canon, m.inflight, path)
    ensures path in m.store
  {
    hide WalFits;
    var put :| put in m.inflight && OnPath(canon, put, path);
    assert PutBasic(canon, m, put);
  }

  /** Writes, appends and broadcasts are always safe. */
  lemma OtherStepsAreSafe(canon: Canon, m: Master, step: Step)
    requires MasterBasic(canon, m) && Room(m) && Safe(canon, m)
    requires step.Write? || step.Append? || step.Broadcast?
    ensures Safe(canon, NextMaster(canon, m, step))
  {
    var m' := NextMaster(canon, m, step);
    SafeIff(canon, m);
    MasterKeepsBasic(canon, m, step);
    RoomStays(canon, m, step);
    hide MasterBasic, Settles, Safe, NextMaster, MendedAt, Room;
    forall path ensures Settles(canon, m', path) && MendedAt(canon, m', path) {
      assert Settles(canon, m, path) && MendedAt(canon, m, path);
      if Elsewhere(canon, m, step, path) {
        OtherPaths(canon, m, step, path);
      } else {
        SettledHasNoConflict(canon, m, path);
        CompletingStep(canon, m, step, path);
        OnPathKeepsMended(canon, m, step, path);
      }
    }
    SafeIff(canon, m');
  }

  lemma RoomStays(canon: Canon, m: Master, step: Step)
    requires Room(m) && (step.Write? || step.Append? || step.Broadcast?)
    ensures Room(NextMaster(canon, m, step))
  {
    hide WriteAt, Appended;
  }
}
