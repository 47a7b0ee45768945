/** Runs of the HTTP-01 solver on one hostname: what any sequence of Present and Cleanup does to the
    hostname's route. */
module AcmeRuns {
  import opened Events
  import opened Texts
  import opened HttpRoutes
  import opened HttpLookups
  import opened AcmeSolvers

  datatype Op = Present(token: string, content: string, publishing: Publishing, saves: bool)
              | Cleanup(token: string, publishing: Publishing, deletes: bool)

  datatype Challenge = Challenge(token: string, content: string)

  function Next(place: Place, s: State, host: string, op: Op): State {
    match op
    case Present(t, c, publishing, saves) => Presented(place, s, host, t, c, publishing, saves).0
    case Cleanup(t, publishing, deletes) => CleanedUp(place, s, host, t, publishing, deletes).0
  }

  function Run(place: Place, s: State, host: string, ops: seq<Op>): State {
    if ops == [] then s else Next(place, Run(place, s, host, ops[..|ops| - 1]), host, ops[|ops| - 1])
  }

  /** The solver starts on a route none of whose policies is a challenge for the tokens, and without
      state files for them. */
  predicate Start(place: Place, s: State, host: string, tokens: set<string>, user: seq<Policy>) {
    && RouteAt(s.zones, place(host)) == Some(user)
    && (forall t :: t in tokens ==> FileOf(host, t) !in s.files)
    && NoneFor(user, tokens)
  }

  predicate NoneFor(ps: seq<Policy>, tokens: set<string>) {
    forall i, t :: 0 <= i < |ps| && t in tokens ==>
      !(ps[i].kind == Exact && ps[i].pathname == "/.well-known/acme-challenge/" + t && ps[i].fixContent != "")
  }

  // ---------------------------------------------------------------------------------------------
  // One edit

  function PoliciesOf(cs: seq<Challenge>): seq<Policy> {
    seq(|cs|, i requires 0 <= i < |cs| => ChallengePolicy(cs[i].token, cs[i].content))
  }

  function Dropped(cs: seq<Challenge>, token: string): seq<Challenge> {
    if cs == [] then []
    else
      var last := cs[|cs| - 1];
      Dropped(cs[..|cs| - 1], token) + if last.token == token then [] else [last]
  }

  /** Challenges for pairwise different tokens. */
  predicate Distinct(cs: seq<Challenge>) {
    && (forall i :: 0 <= i < |cs| ==> cs[i].content != "")
    && (forall i, j :: 0 <= i < j < |cs| ==> cs[i].token != cs[j].token)
  }

  lemma {:induction false} DroppedIs(cs: seq<Challenge>, token: string)
    ensures forall c :: c in Dropped(cs, token) <==> c in cs && c.token != token
    ensures Distinct(cs) ==> Distinct(Dropped(cs, token))
  {
    if cs != [] {
      var front, last := cs[..|cs| - 1], cs[|cs| - 1];
      assert cs == front + [last];
      DroppedIs(front, token);
      forall i | Distinct(cs) && 0 <= i < |Dropped(front, token)|
        ensures Dropped(front, token)[i].token != last.token
      {
        assert Dropped(front, token)[i] in front;
      }
    }
  }

  lemma {:induction false} WithoutChallenges(cs: seq<Challenge>, token: string)
    requires forall i :: 0 <= i < |cs| ==> cs[i].content != ""
    ensures Without(PoliciesOf(cs), token) == PoliciesOf(Dropped(cs, token))
  {
    hide IsChallenge, ChallengePolicy;
    if cs != [] {
      var front, last := cs[..|cs| - 1], cs[|cs| - 1];
      WithoutChallenges(front, token);
      assert PoliciesOf(cs)[..|cs| - 1] == PoliciesOf(front);
      IsChallengeIff(last, token);
    }
  }

  lemma IsChallengeIff(c: Challenge, token: string)
    requires c.content != ""
    ensures IsChallenge(ChallengePolicy(c.token, c.content), token) <==> c.token == token
  {
    PathsDiffer(c.token, token);
  }

  lemma PathsDiffer(a: string, b: string)
    ensures ChallengePath(a) == ChallengePath(b) <==> a == b
  {
    var prefix := "/.well-known/acme-challenge/";
    assert (prefix + a)[|prefix|..] == a && (prefix + b)[|prefix|..] == b;
  }

  lemma {:induction false} WithoutUser(front: seq<Policy>, user: seq<Policy>, token: string)
    requires NoneFor(user, {token})
    ensures Without(front + user, token) == Without(front, token) + user
  {
    if user == [] {
      assert front + user == front;
    } else {
      var all, init := front + user, user[..|user| - 1];
      assert all[..|all| - 1] == front + init;
      WithoutUser(front, init, token);
      assert !IsChallenge(user[|user| - 1], token);
    }
  }

  /** Whatever a stored route holds is in normal form, if it builds at all. */
  lemma StoredIsNormal(zones: map<StorePath, HttpZone>, at: StorePath)
    requires RouteAt(zones, at).Some?
    ensures forall p :: p in RouteAt(zones, at).value && Built(p).Ok? ==> NormalForm(p) == p
  {
    hide Built, Decoded, NormalForm;
    if at in zones {
      var ms := zones[at].policies;
      forall i | 0 <= i < |ms| && Built(Decoded(ms[i], Exact)).Ok?
        ensures NormalForm(Decoded(ms[i], Exact)) == Decoded(ms[i], Exact)
      {
        RebuiltIffCoherent(ms[i]);
      }
    }
  }

  lemma {:induction false} WithoutKeeps(ps: seq<Policy>, token: string)
    ensures forall p :: p in Without(ps, token) ==> p in ps
  {
    if ps != [] {
      WithoutKeeps(ps[..|ps| - 1], token);
    }
  }

  lemma ChallengeBuilds(token: string, content: string)
    requires content != ""
    ensures Built(ChallengePolicy(token, content)).Ok?
    ensures NormalForm(ChallengePolicy(token, content)) == ChallengePolicy(token, content)
  {
  }

  lemma ChallengesBuild(host: string, cs: seq<Challenge>, user: seq<Policy>)
    requires Distinct(cs)
    ensures Buildable(host, PoliciesOf(cs) + user) <==> Buildable(host, user)
  {
    hide Built, Blank, ChallengePolicy;
    var all := PoliciesOf(cs) + user;
    forall i | 0 <= i < |cs| ensures Built(all[i]).Ok? {
      ChallengeBuilds(cs[i].token, cs[i].content);
    }
    if AllBuild(all) {
      forall i | 0 <= i < |user| ensures Built(user[i]).Ok? {
        assert all[|cs| + i] == user[i];
      }
    }
  }

  /** An edit that reaches the store is read back as it was made. */
  lemma EditIsReadBack(place: Place, zones: map<StorePath, HttpZone>, host: string, front: seq<Challenge>,
                       token: string, publishing: Publishing)
    requires RouteAt(zones, place(host)).Some? && Distinct(front)
    ensures var next := PoliciesOf(front) + Without(RouteAt(zones, place(host)).value, token);
            var (zones', done) := Edited(place, zones, host, PoliciesOf(front), token, publishing);
            && done == (publishing.Published? && Buildable(host, next))
            && if publishing.Rejected? || !Buildable(host, next) then zones' == zones
               else RouteAt(zones', place(host)) == Some(next)
                    && place(host) in zones' && zones'[place(host)] == BuiltZone(host, next)
  {
    hide Built, Blank, NormalForm, ChallengePolicy, Without;
    var route := RouteAt(zones, place(host)).value;
    var next := PoliciesOf(front) + Without(route, token);
    if !publishing.Rejected? && Buildable(host, next) {
      RouteRoundTrip(host, next);
      StoredIsNormal(zones, place(host));
      WithoutKeeps(route, token);
      forall i | 0 <= i < |next| ensures NormalForm(next[i]) == next[i] {
        assert Built(next[i]).Ok?;
        if i < |front| {
          ChallengeBuilds(front[i].token, front[i].content);
        } else {
          assert next[i] in Without(route, token);
        }
      }
      assert NormalForms(next) == next;
    }
  }

  // ---------------------------------------------------------------------------------------------
  // Any run: the user's policies stay, and challenges stay in front of them

  predicate InFront(place: Place, s: State, host: string, tokens: set<string>, user: seq<Policy>, cs: seq<Challenge>) {
    && RouteAt(s.zones, place(host)) == Some(PoliciesOf(cs) + user)
    && Distinct(cs) && (forall c :: c in cs ==> c.token in tokens)
    && (cs != [] ==> Buildable(host, user) && place(host) in s.zones
                     && s.zones[place(host)].policies == Messages(PoliciesOf(cs) + user))
  }

  /** The messages of policies that build. */
  function Messages(ps: seq<Policy>): seq<HttpPolicy> {
    if AllBuild(ps) then BuiltAll(ps) else []
  }

  /** The state files of the tokens are about tokens, on this hostname. */
  predicate FilesFor(s: State, host: string, tokens: set<string>) {
    forall t :: t in tokens && FileOf(host, t) in s.files ==>
      s.files[FileOf(host, t)].hostname == host && s.files[FileOf(host, t)].token in tokens
  }

  lemma EditKeepsFront(place: Place, s: State, host: string, tokens: set<string>, user: seq<Policy>,
                       cs: seq<Challenge>, front: seq<Challenge>, token: string, publishing: Publishing)
    requires InFront(place, s, host, tokens, user, cs) && NoneFor(user, tokens) && token in tokens
    requires front == [] || (|front| == 1 && front[0].token == token && front[0].content != "")
    ensures var (zones, done) := Edited(place, s.zones, host, PoliciesOf(front), token, publishing);
            var cs' := if publishing.Rejected? || !Buildable(host, user) then cs else front + Dropped(cs, token);
            && InFront(place, s.(zones := zones), host, tokens, user, cs')
            && done == (publishing.Published? && Buildable(host, user))
  {
    hide Buildable, BuiltAll, ChallengePolicy, NoneFor, Edited, Without, Distinct, PoliciesOf, RouteAt, Dropped;
    var next := front + Dropped(cs, token);
    NextDistinct(cs, front, token);
    NextTokens(cs, front, token, tokens);
    assert forall i :: 0 <= i < |cs| ==> cs[i].content != "" by { DistinctContents(cs); }
    WithoutChallenges(cs, token);
    OneToken(user, tokens, token);
    WithoutUser(PoliciesOf(cs), user, token);
    PoliciesJoin(front, Dropped(cs, token), user);
    EditIsReadBack(place, s.zones, host, front, token, publishing);
    ChallengesBuild(host, next, user);
    BuildableAll(host, PoliciesOf(next) + user);
  }

  lemma DistinctContents(cs: seq<Challenge>)
    requires Distinct(cs)
    ensures forall i :: 0 <= i < |cs| ==> cs[i].content != ""
  {
  }

  lemma PoliciesJoin(front: seq<Challenge>, cs: seq<Challenge>, user: seq<Policy>)
    ensures PoliciesOf(front) + (PoliciesOf(cs) + user) == PoliciesOf(front + cs) + user
  {
    assert PoliciesOf(front + cs) == PoliciesOf(front) + PoliciesOf(cs);
  }

  lemma NextTokens(cs: seq<Challenge>, front: seq<Challenge>, token: string, tokens: set<string>)
    requires forall c :: c in cs ==> c.token in tokens
    requires token in tokens && forall c :: c in front ==> c.token == token
    ensures forall c :: c in front + Dropped(cs, token) ==> c.token in tokens
  {
    DroppedIs(cs, token);
  }

  lemma OneToken(user: seq<Policy>, tokens: set<string>, token: string)
    requires NoneFor(user, tokens) && token in tokens
    ensures NoneFor(user, {token})
  {
    hide IsChallenge;
  }

  lemma BuildableAll(host: string, ps: seq<Policy>)
    ensures Buildable(host, ps) ==> BuiltZone(host, ps).policies == Messages(ps)
  {
    hide Built;
  }

  lemma NextDistinct(cs: seq<Challenge>, front: seq<Challenge>, token: string)
    requires Distinct(cs)
    requires front == [] || (|front| == 1 && front[0].token == token && front[0].content != "")
    ensures Distinct(front) && Distinct(front + Dropped(cs, token))
  {
    DroppedIs(cs, token);
    var next := front + Dropped(cs, token);
    forall i, j | 0 <= i < j < |next| ensures next[i].token != next[j].token {
      assert next[j] in Dropped(cs, token);
    }
  }

  lemma StepKeepsFront(place: Place, s: State, host: string, tokens: set<string>, user: seq<Policy>,
                       cs: seq<Challenge>, op: Op) returns (cs': seq<Challenge>)
    requires InFront(place, s, host, tokens, user, cs) && FilesFor(s, host, tokens) && NoneFor(user, tokens)
    requires op.token in tokens
    ensures InFront(place, Next(place, s, host, op), host, tokens, user, cs')
    ensures FilesFor(Next(place, s, host, op), host, tokens)
  {
    hide InFront, Edited, FileOf, NoneFor, Buildable, ChallengePolicy;
    cs' := cs;
    match op {
      case Present(t, c, publishing, saves) =>
        if host != "" && t != "" && c != "" {
          var front := [Challenge(t, c)];
          assert PoliciesOf(front) == [ChallengePolicy(t, c)];
          EditKeepsFront(place, s, host, tokens, user, cs, front, t, publishing);
          cs' := if publishing.Rejected? || !Buildable(host, user) then cs else front + Dropped(cs, t);
          FrontIgnoresFiles(place, s, host, tokens, user, cs');
        }
      case Cleanup(t, publishing, deletes) =>
        if host != "" && t != "" && FileOf(host, t) in s.files {
          var token := s.files[FileOf(host, t)].token;
          assert PoliciesOf([]) == [];
          EditKeepsFront(place, s, host, tokens, user, cs, [], token, publishing);
          cs' := if publishing.Rejected? || !Buildable(host, user) then cs else [] + Dropped(cs, token);
          FrontIgnoresFiles(place, s, host, tokens, user, cs');
        }
    }
  }

  lemma FrontIgnoresFiles(place: Place, s: State, host: string, tokens: set<string>, user: seq<Policy>,
                          cs: seq<Challenge>)
    ensures forall t: State :: InFront(place, t, host, tokens, user, cs)
                      == InFront(place, State(t.zones, map[]), host, tokens, user, cs)
  {
  }

  /** Over every run - publishes that fail or stop half way, file operations that fail, tokens whose
      state files collide - the hostname's route is at most one challenge per token, followed by the
      user's policies, unchanged and in order. */
  lemma {:induction false} UserPoliciesStay(place: Place, s: State, host: string, tokens: set<string>,
                                            user: seq<Policy>, ops: seq<Op>) returns (cs: seq<Challenge>)
    requires Start(place, s, host, tokens, user)
    requires forall i :: 0 <= i < |ops| ==> ops[i].token in tokens
    ensures InFront(place, Run(place, s, host, ops), host, tokens, user, cs)
    ensures FilesFor(Run(place, s, host, ops), host, tokens)
  {
    hide Next, IsChallenge;
    if ops == [] {
      cs := [];
      assert PoliciesOf([]) + user == user;
    } else {
      var init := ops[..|ops| - 1];
      var before := UserPoliciesStay(place, s, host, tokens, user, init);
      cs := StepKeepsFront(place, Run(place, s, host, init), host, tokens, user, before, ops[|ops| - 1]);
    }
  }

  // ---------------------------------------------------------------------------------------------
  // Runs whose operations finish: every outstanding token has its challenge

  /** A publish is refused or done in full, and no file operation fails. */
  predicate Finishes(op: Op) {
    match op
    case Present(_, c, publishing, saves) => op.token != "" && c != "" && !publishing.StoredOnly? && saves
    case Cleanup(_, publishing, deletes) => op.token != "" && !publishing.StoredOnly? && deletes
  }

  predicate AllFinish(ops: seq<Op>, tokens: set<string>) {
    forall i :: 0 <= i < |ops| ==> ops[i].token in tokens && Finishes(ops[i])
  }

  /** The challenges presented and not cleaned up, the newest first. */
  function Outstanding(ops: seq<Op>): seq<Challenge> {
    if ops == [] then []
    else
      var before, op := Outstanding(ops[..|ops| - 1]), ops[|ops| - 1];
      if !op.publishing.Published? then before
      else (if op.Present? then [Challenge(op.token, op.content)] else []) + Dropped(before, op.token)
  }

  predicate OwnFiles(host: string, tokens: set<string>) {
    forall t, u :: t in tokens && u in tokens && FileOf(host, t) == FileOf(host, u) ==> t == u
  }

  predicate HasToken(cs: seq<Challenge>, token: string) {
    exists i :: 0 <= i < |cs| && cs[i].token == token
  }

  /** A token has a state file, its own, exactly when it is outstanding. */
  predicate FilesAgree(s: State, host: string, tokens: set<string>, cs: seq<Challenge>) {
    forall t :: t in tokens ==>
      && (FileOf(host, t) in s.files <==> HasToken(cs, t))
      && (FileOf(host, t) in s.files ==>
          s.files[FileOf(host, t)].hostname == host && s.files[FileOf(host, t)].token == t)
  }

  lemma HasTokenNext(cs: seq<Challenge>, front: seq<Challenge>, token: string, t: string)
    requires forall c :: c in front ==> c.token == token
    ensures HasToken(front + Dropped(cs, token), t) <==> if t == token then front != [] else HasToken(cs, t)
  {
    DroppedIs(cs, token);
    var next := front + Dropped(cs, token);
    if HasToken(next, t) {
      var i :| 0 <= i < |next| && next[i].token == t;
      assert i >= |front| ==> next[i] in Dropped(cs, token);
      assert i < |front| ==> next[i] in front;
      assert t != token ==> next[i] in cs;
    }
    if t == token && front != [] {
      assert next[0] == front[0] && front[0] in front;
    }
    if t != token && HasToken(cs, t) {
      var i :| 0 <= i < |cs| && cs[i].token == t;
      assert cs[i] in Dropped(cs, token);
      assert cs[i] in next;
    }
  }

  predicate InRoute(place: Place, s: State, host: string, tokens: set<string>, user: seq<Policy>, cs: seq<Challenge>) {
    InFront(place, s, host, tokens, user, cs) && FilesAgree(s, host, tokens, cs)
  }

  lemma PresentFiles(host: string, tokens: set<string>, s: State, s': State, cs: seq<Challenge>, token: string,
                     content: string)
    requires OwnFiles(host, tokens) && FilesAgree(s, host, tokens, cs) && token in tokens
    requires s'.files == s.files[FileOf(host, token) := ChallengeState(host, token, content)]
    ensures FilesAgree(s', host, tokens, [Challenge(token, content)] + Dropped(cs, token))
  {
    hide FileOf, HasToken, Dropped;
    forall t ensures HasToken([Challenge(token, content)] + Dropped(cs, token), t) <==> t == token || HasToken(cs, t) {
      HasTokenNext(cs, [Challenge(token, content)], token, t);
    }
  }

  lemma CleanupFiles(host: string, tokens: set<string>, s: State, s': State, cs: seq<Challenge>, token: string)
    requires OwnFiles(host, tokens) && FilesAgree(s, host, tokens, cs) && token in tokens
    requires s'.files == s.files - {FileOf(host, token)}
    ensures FilesAgree(s', host, tokens, [] + Dropped(cs, token))
  {
    hide FileOf, HasToken, Dropped;
    forall t ensures HasToken([] + Dropped(cs, token), t) <==> t != token && HasToken(cs, t) {
      HasTokenNext(cs, [], token, t);
    }
  }

  lemma AbsentDropped(cs: seq<Challenge>, token: string)
    requires !HasToken(cs, token)
    ensures Dropped(cs, token) == cs
  {
    if cs != [] {
      var front := cs[..|cs| - 1];
      assert forall i :: 0 <= i < |front| ==> front[i] == cs[i];
      AbsentDropped(front, token);
    }
  }

  lemma StepKeepsRoute(place: Place, s: State, host: string, tokens: set<string>, user: seq<Policy>,
                   cs: seq<Challenge>, op: Op)
    requires InRoute(place, s, host, tokens, user, cs) && NoneFor(user, tokens) && OwnFiles(host, tokens)
    requires op.token in tokens && Finishes(op) && host != "" && Buildable(host, user)
    ensures var front := if op.Present? then [Challenge(op.token, op.content)] else [];
            InRoute(place, Next(place, s, host, op), host, tokens, user,
                   if op.publishing.Published? then front + Dropped(cs, op.token) else cs)
  {
    hide InFront, Edited, FileOf, NoneFor, Buildable, ChallengePolicy, OwnFiles, HasToken, Dropped;
    var s' := Next(place, s, host, op);
    match op {
      case Present(t, c, publishing, saves) =>
        var front := [Challenge(t, c)];
        assert PoliciesOf(front) == [ChallengePolicy(t, c)];
        EditKeepsFront(place, s, host, tokens, user, cs, front, t, publishing);
        FrontIgnoresFiles(place, s, host, tokens, user, if publishing.Published? then front + Dropped(cs, t) else cs);
        if publishing.Published? {
          PresentFiles(host, tokens, s, s', cs, t, c);
        }
      case Cleanup(t, publishing, deletes) =>
        if FileOf(host, t) in s.files {
          assert PoliciesOf([]) == [];
          EditKeepsFront(place, s, host, tokens, user, cs, [], t, publishing);
          FrontIgnoresFiles(place, s, host, tokens, user, if publishing.Published? then [] + Dropped(cs, t) else cs);
          if publishing.Published? {
            CleanupFiles(host, tokens, s, s', cs, t);
          }
        } else {
          AbsentDropped(cs, t);
          assert [] + cs == cs;
        }
    }
  }

  /** Over every run whose operations finish, with tokens whose state files differ, the route is the
      outstanding challenges, one per token and newest first, followed by the user's policies. */
  lemma {:induction false} OutstandingAreInRoute(place: Place, s: State, host: string, tokens: set<string>,
                                                user: seq<Policy>, ops: seq<Op>)
    requires Start(place, s, host, tokens, user) && host != "" && Buildable(host, user) && OwnFiles(host, tokens)
    requires AllFinish(ops, tokens)
    ensures InRoute(place, Run(place, s, host, ops), host, tokens, user, Outstanding(ops))
  {
    hide Next, IsChallenge, Buildable, OwnFiles, Finishes;
    if ops == [] {
      assert PoliciesOf([]) + user == user;
    } else {
      var init := ops[..|ops| - 1];
      OutstandingAreInRoute(place, s, host, tokens, user, init);
      StepKeepsRoute(place, Run(place, s, host, init), host, tokens, user, Outstanding(init), ops[|ops| - 1]);
    }
  }

  /** The last finished operation on a token, if any, told by its position. */
  predicate LastOn(ops: seq<Op>, i: nat) {
    i < |ops| && ops[i].publishing.Published?
    && forall j :: i < j < |ops| && ops[j].publishing.Published? ==> ops[j].token != ops[i].token
  }

  /** A challenge is outstanding exactly when the last finished operation on its token presented it. */
  lemma {:induction false} OutstandingIff(ops: seq<Op>, c: Challenge)
    ensures c in Outstanding(ops) <==>
            exists i: nat :: LastOn(ops, i) && ops[i].Present? && Challenge(ops[i].token, ops[i].content) == c
  {
    if ops != [] {
      var init, op := ops[..|ops| - 1], ops[|ops| - 1];
      OutstandingIff(init, c);
      DroppedIs(Outstanding(init), op.token);
      assert forall i: nat :: i < |init| ==> (LastOn(ops, i) <==>
               LastOn(init, i) && (op.publishing.Published? ==> op.token != init[i].token));
      assert LastOn(ops, |ops| - 1) <==> op.publishing.Published?;
    }
  }

  // ---------------------------------------------------------------------------------------------
  // What the engine answers

  lemma ChallengeTakes(c: Challenge, r: Request, regex: Matcher)
    requires c.content != ""
    ensures Takes(ChallengePolicy(c.token, c.content), r, regex) == Decided(r.path == ChallengePath(c.token), "")
  {
  }

  /** Each challenge is served at its token's path, whatever the user's policies would have matched
      there, and every other request is answered by the user's policies alone. */
  lemma ChallengesAnswerFirst(host: string, cs: seq<Challenge>, user: seq<Policy>, r: Request, regex: Matcher)
    requires Distinct(cs) && Buildable(host, user)
    ensures Buildable(host, PoliciesOf(cs) + user)
    ensures forall c :: c in cs && r.path == "/.well-known/acme-challenge/" + c.token ==>
              Lookup(BuiltAll(PoliciesOf(cs) + user), r, regex) == HttpLookups.Served("", "", c.content, true)
    ensures (forall c :: c in cs ==> r.path != "/.well-known/acme-challenge/" + c.token) ==>
              Lookup(BuiltAll(PoliciesOf(cs) + user), r, regex) == Lookup(BuiltAll(user), r, regex)
  {
    hide Takes, Blank, Lookup, Built, VerdictOf;
    var all := PoliciesOf(cs) + user;
    ChallengesBuild(host, cs, user);
    forall i | 0 <= i < |cs| ensures Takes(all[i], r, regex) == Decided(r.path == ChallengePath(cs[i].token), "") {
      ChallengeTakes(cs[i], r, regex);
    }
    forall k | 0 <= k < |cs| && r.path == ChallengePath(cs[k].token)
      ensures Lookup(BuiltAll(all), r, regex) == HttpLookups.Served("", "", cs[k].content, true)
    {
      forall j | 0 <= j < k ensures Takes(all[j], r, regex).NoMatch? {
        PathsDiffer(cs[j].token, cs[k].token);
      }
      RoutedAsBuilt(host, all, k, r, regex);
    }
    if forall c :: c in cs ==> r.path != ChallengePath(c.token) {
      var built := BuiltAll(all);
      forall j | 0 <= j < |cs| ensures VerdictOf(built[j], r, regex).NoMatch? {
        BuiltTakes(all[j], r, regex);
      }
      PassedOn(built, |cs|, r, regex);
      assert built[|cs|..] == BuiltAll(user);
    }
  }

  /** After any run of finished operations the stored route answers every outstanding challenge. */
  lemma OutstandingAreAnswered(place: Place, s: State, host: string, tokens: set<string>, user: seq<Policy>,
                               ops: seq<Op>, c: Challenge, r: Request, regex: Matcher)
    requires Start(place, s, host, tokens, user) && host != "" && Buildable(host, user) && OwnFiles(host, tokens)
    requires AllFinish(ops, tokens) && c in Outstanding(ops) && r.path == "/.well-known/acme-challenge/" + c.token
    ensures var end := Run(place, s, host, ops);
            && place(host) in end.zones
            && Lookup(end.zones[place(host)].policies, r, regex) == HttpLookups.Served("", "", c.content, true)
  {
    hide Lookup, Buildable, OwnFiles, Finishes, Start, Run, Outstanding, FilesAgree, RouteAt, PoliciesOf;
    OutstandingAreInRoute(place, s, host, tokens, user, ops);
    ChallengesAnswerFirst(host, Outstanding(ops), user, r, regex);
    BuildableAll(host, PoliciesOf(Outstanding(ops)) + user);
  }

  lemma {:induction false} PassedOn(ms: seq<HttpPolicy>, n: nat, r: Request, regex: Matcher)
    requires n <= |ms| && forall j :: 0 <= j < n ==> VerdictOf(ms[j], r, regex).NoMatch?
    ensures Lookup(ms, r, regex) == Lookup(ms[n..], r, regex)
  {
    hide VerdictOf;
    if n > 0 {
      assert VerdictOf(ms[0], r, regex).NoMatch?;
      PassedOn(ms[1..], n - 1, r, regex);
      assert ms[1..][n - 1..] == ms[n..];
    }
  }

  // ---------------------------------------------------------------------------------------------
  // Tokens that share a state file

  /** A token in the base64url alphabet, as section 8.1 of RFC 8555 asks. */
  predicate IsToken(t: string) {
    t != "" && forall i :: 0 <= i < |t| ==>
              'a' <= Lower(t[i]) <= 'z' || '0' <= t[i] <= '9' || t[i] == '-' || t[i] == '_'
  }

  lemma {:induction false} TrimLeftStops(a: string, b: string)
    requires a != "" && !IsSpace(a[|a| - 1])
    ensures TrimLeft(a + b, IsSpace) == TrimLeft(a, IsSpace) + b
    ensures TrimLeft(a, IsSpace) != ""
  {
    hide IsSpace;
    if IsSpace(a[0]) {
      TrimLeftStops(a[1..], b);
      assert (a + b)[1..] == a[1..] + b;
    }
  }

  lemma TrimmedToken(host: string, t: string)
    requires IsToken(t)
    ensures TrimSpace(ToLower(Http01Key(host, t))) == TrimLeft(ToLower(host + "|"), IsSpace) + ToLower(t)
  {
    var head := ToLower(host + "|");
    assert ToLower(Http01Key(host, t)) == head + ToLower(t);
    assert head[|head| - 1] == '|';
    TrimLeftStops(head, ToLower(t));
    LowerToken(t);
  }

  /** Whatever the key, its state file's name holds no separator and no capital. */
  lemma FileNameIsSafe(host: string, t: string)
    ensures FileOf(host, t) != "" && forall i :: 0 <= i < |FileOf(host, t)| ==>
              FileOf(host, t)[i] !in "/\\:?&=|" && !('A' <= FileOf(host, t)[i] <= 'Z')
  {
    hide IsSpace;
    var lower := ToLower(Http01Key(host, t));
    var a, b := SpaceTrimmed(lower);
    var trimmed := TrimSpace(lower);
    forall i | 0 <= i < |trimmed| ensures !('A' <= trimmed[i] <= 'Z') {
      assert trimmed[i] == lower[|a| + i];
    }
    hide TrimSpace, ToLower, Http01Key;
  }

  lemma LowerToken(t: string)
    requires IsToken(t)
    ensures |ToLower(t)| == |t| && !IsSpace(ToLower(t)[|t| - 1])
    ensures forall i :: 0 <= i < |t| ==> Replaced(ToLower(t)[i]) == ToLower(t)[i]
  {
  }

  lemma SanitizedToken(host: string, t: string) returns (front: string)
    requires IsToken(t)
    ensures front == TrimLeft(ToLower(host + "|"), IsSpace)
    ensures |FileOf(host, t)| == |front| + |t|
    ensures FileOf(host, t)[|front|..] == ToLower(t)
    ensures forall i :: 0 <= i < |front| ==> FileOf(host, t)[i] == Replaced(front[i])
  {
    hide TrimSpace, TrimLeft, ToLower, IsToken, Replaced, Http01Key;
    front := TrimLeft(ToLower(host + "|"), IsSpace);
    TrimmedToken(host, t);
    LowerToken(t);
    assert |t| > 0 by { TokenNotEmpty(t); }
    var trimmed := front + ToLower(t);
    assert trimmed[|front|..] == ToLower(t);
    assert forall i :: 0 <= i < |t| ==> Replaced(trimmed[|front| + i]) == ToLower(t)[i];
  }

  lemma TokenNotEmpty(t: string)
    requires IsToken(t)
    ensures |t| > 0
  {
  }

  /** Two tokens of one hostname share a state file exactly when they differ in letter case only. */
  lemma SharedFileIffSameLetters(host: string, t: string, u: string)
    requires IsToken(t) && IsToken(u)
    ensures FileOf(host, t) == FileOf(host, u) <==> ToLower(t) == ToLower(u)
  {
    hide FileOf, IsToken, Replaced, TrimLeft, ToLower;
    var front := SanitizedToken(host, t);
    var again := SanitizedToken(host, u);
    LowerLength(t);
    LowerLength(u);
    if ToLower(t) == ToLower(u) {
      assert FileOf(host, t) == FileOf(host, t)[..|front|] + FileOf(host, t)[|front|..];
      assert FileOf(host, u) == FileOf(host, u)[..|front|] + FileOf(host, u)[|front|..];
      assert FileOf(host, t)[..|front|] == FileOf(host, u)[..|front|];
    }
  }

  lemma LowerLength(t: string)
    ensures |ToLower(t)| == |t|
  {
  }

  lemma PresentPublishes(place: Place, s: State, host: string, tokens: set<string>, user: seq<Policy>,
                         cs: seq<Challenge>, t: string, c: string)
    requires InFront(place, s, host, tokens, user, cs) && NoneFor(user, tokens) && t in tokens
    requires host != "" && t != "" && c != "" && Buildable(host, user)
    ensures var s' := Next(place, s, host, Present(t, c, Published, true));
            && InFront(place, s', host, tokens, user, [Challenge(t, c)] + Dropped(cs, t))
            && s'.files == s.files[FileOf(host, t) := ChallengeState(host, t, c)]
  {
    hide InFront, Edited, FileOf, NoneFor, Buildable, ChallengePolicy, Dropped;
    assert PoliciesOf([Challenge(t, c)]) == [ChallengePolicy(t, c)];
    EditKeepsFront(place, s, host, tokens, user, cs, [Challenge(t, c)], t, Published);
    FrontIgnoresFiles(place, s, host, tokens, user, [Challenge(t, c)] + Dropped(cs, t));
  }

  lemma CleanupPublishes(place: Place, s: State, host: string, tokens: set<string>, user: seq<Policy>,
                         cs: seq<Challenge>, t: string, u: string)
    requires InFront(place, s, host, tokens, user, cs) && NoneFor(user, tokens) && u in tokens
    requires host != "" && t != "" && Buildable(host, user)
    requires FileOf(host, t) in s.files
    requires s.files[FileOf(host, t)].hostname == host && s.files[FileOf(host, t)].token == u
    ensures var s' := Next(place, s, host, Cleanup(t, Published, true));
            && InFront(place, s', host, tokens, user, [] + Dropped(cs, u))
            && s'.files == s.files - {FileOf(host, t)}
  {
    hide InFront, Edited, FileOf, NoneFor, Buildable, ChallengePolicy, Dropped;
    assert PoliciesOf([]) == [];
    EditKeepsFront(place, s, host, tokens, user, cs, [], u, Published);
    FrontIgnoresFiles(place, s, host, tokens, user, [] + Dropped(cs, u));
  }

  lemma DroppedShort(a: Challenge, b: Challenge)
    requires a.token != b.token
    ensures Dropped([], a.token) == [] && Dropped([a], b.token) == [a] && Dropped([a], a.token) == []
    ensures Dropped([b, a], b.token) == [a] && Dropped([b, a], a.token) == [b]
  {
    assert [b, a][..1] == [b] && [a][..0] == [];
  }

  lemma OutstandingThree(a: Challenge, b: Challenge)
    requires a.token != b.token
    ensures Outstanding([Present(a.token, a.content, Published, true), Present(b.token, b.content, Published, true),
                         Cleanup(a.token, Published, true)]) == [b]
  {
    hide Dropped;
    var one, two := Present(a.token, a.content, Published, true), Present(b.token, b.content, Published, true);
    var three := Cleanup(a.token, Published, true);
    assert [one, two, three][..2] == [one, two] && [one, two][..1] == [one] && [one][..0] == [];
    DroppedShort(a, b);
    DroppedShort(b, a);
    assert Outstanding([one]) == [a];
    assert Outstanding([one, two]) == [b, a];
  }

  lemma RunThree(place: Place, s: State, host: string, one: Op, two: Op, three: Op)
    ensures Run(place, s, host, [one, two, three])
         == Next(place, Next(place, Next(place, s, host, one), host, two), host, three)
  {
    hide Next;
    assert [one, two, three][..2] == [one, two] && [one, two][..1] == [one] && [one][..0] == [];
    assert Run(place, s, host, [one]) == Next(place, s, host, one);
    assert Run(place, s, host, [one, two]) == Next(place, Run(place, s, host, [one]), host, two);
  }

  lemma StartIsFront(place: Place, s: State, host: string, tokens: set<string>, user: seq<Policy>)
    requires Start(place, s, host, tokens, user)
    ensures InFront(place, s, host, tokens, user, []) && NoneFor(user, tokens)
  {
    hide NoneFor, RouteAt;
    assert PoliciesOf([]) + user == user;
  }

  lemma FrontRoute(place: Place, s: State, host: string, tokens: set<string>, user: seq<Policy>, c: Challenge)
    requires InFront(place, s, host, tokens, user, [c])
    ensures RouteAt(s.zones, place(host)) == Some([ChallengePolicy(c.token, c.content)] + user)
  {
    hide RouteAt, ChallengePolicy;
    assert PoliciesOf([c]) == [ChallengePolicy(c.token, c.content)];
  }

  lemma NothingToCleanUp(place: Place, s: State, host: string, t: string)
    requires host != "" && t != "" && FileOf(host, t) !in s.files
    ensures CleanedUp(place, s, host, t, Published, true) == (s, true)
  {
  }

  /** Two tokens whose keys sanitise alike break it: cleaning up the first takes out the second's
      challenge and reports success, and the first's can no longer be taken out. */
  lemma SharedFileLosesChallenge(place: Place, s: State, host: string, user: seq<Policy>, t: string, u: string,
                                 c: string)
    requires t != u && t != "" && u != "" && c != "" && host != "" && FileOf(host, t) == FileOf(host, u)
    requires Start(place, s, host, {t, u}, user) && Buildable(host, user)
    ensures var ops := [Present(t, c, Published, true), Present(u, c, Published, true), Cleanup(t, Published, true)];
            var end := Run(place, s, host, ops);
            && AllFinish(ops, {t, u})
            && Outstanding(ops) == [Challenge(u, c)]
            && RouteAt(end.zones, place(host)) == Some([ChallengePolicy(t, c)] + user)
            && CleanedUp(place, end, host, t, Published, true) == (end, true)
            && CleanedUp(place, end, host, u, Published, true) == (end, true)
  {
    hide InFront, FileOf, NoneFor, Buildable, Dropped, Next, Run, Outstanding, Start, RouteAt, CleanedUp;
    var a, b, tokens := Challenge(t, c), Challenge(u, c), {t, u};
    var one, two, three := Present(t, c, Published, true), Present(u, c, Published, true), Cleanup(t, Published, true);
    var s1 := Next(place, s, host, one);
    var s2 := Next(place, s1, host, two);
    var s3 := Next(place, s2, host, three);
    DroppedShort(a, b);
    assert [a] + [] == [a] && [b] + [a] == [b, a] && [] + [a] == [a];
    StartIsFront(place, s, host, tokens, user);
    PresentPublishes(place, s, host, tokens, user, [], t, c);
    PresentPublishes(place, s1, host, tokens, user, [a], u, c);
    CleanupPublishes(place, s2, host, tokens, user, [b, a], t, u);
    FrontRoute(place, s3, host, tokens, user, a);
    RunThree(place, s, host, one, two, three);
    OutstandingThree(a, b);
    NothingToCleanUp(place, s3, host, t);
    NothingToCleanUp(place, s3, host, u);
  }

  /** The route holds the outstanding challenges after every run of finished operations exactly when
      no two of the tokens share a state file. */
  lemma InRouteIffOwnFiles(place: Place, s: State, host: string, tokens: set<string>, user: seq<Policy>)
    requires Start(place, s, host, tokens, user) && host != "" && "" !in tokens && Buildable(host, user)
    ensures OwnFiles(host, tokens) <==>
            forall ops :: AllFinish(ops, tokens) ==>
              InRoute(place, Run(place, s, host, ops), host, tokens, user, Outstanding(ops))
  {
    hide InRoute, Run, Outstanding, Buildable, FileOf, Start, AllFinish;
    if OwnFiles(host, tokens) {
      forall ops | AllFinish(ops, tokens)
        ensures InRoute(place, Run(place, s, host, ops), host, tokens, user, Outstanding(ops))
      {
        OutstandingAreInRoute(place, s, host, tokens, user, ops);
      }
    } else {
      var t, u :| t in tokens && u in tokens && FileOf(host, t) == FileOf(host, u) && t != u;
      var c := "c";
      var ops := [Present(t, c, Published, true), Present(u, c, Published, true), Cleanup(t, Published, true)];
      SubsetStarts(place, s, host, tokens, user, {t, u});
      SharedFileLosesChallenge(place, s, host, user, t, u, c);
      MoreTokens(ops, {t, u}, tokens);
      NotInRoute(place, Run(place, s, host, ops), host, tokens, user, Challenge(t, c), Challenge(u, c));
    }
  }

  lemma SubsetStarts(place: Place, s: State, host: string, tokens: set<string>, user: seq<Policy>, some: set<string>)
    requires Start(place, s, host, tokens, user) && some <= tokens
    ensures Start(place, s, host, some, user)
  {
    hide RouteAt, FileOf, IsChallenge;
  }

  lemma MoreTokens(ops: seq<Op>, some: set<string>, tokens: set<string>)
    requires AllFinish(ops, some) && some <= tokens
    ensures AllFinish(ops, tokens)
  {
    hide Finishes;
  }

  lemma NotInRoute(place: Place, s: State, host: string, tokens: set<string>, user: seq<Policy>, a: Challenge,
                  b: Challenge)
    requires a.token != b.token
    requires RouteAt(s.zones, place(host)) == Some([ChallengePolicy(a.token, a.content)] + user)
    ensures !InRoute(place, s, host, tokens, user, [b])
  {
    hide RouteAt, FilesAgree;
    PathsDiffer(a.token, b.token);
    assert ([ChallengePolicy(a.token, a.content)] + user)[0].pathname != (PoliciesOf([b]) + user)[0].pathname;
  }
}
