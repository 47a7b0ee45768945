/** The HTTP-01 solver: it answers a challenge by putting a policy for the token's path in front of
    the hostname's route, and takes it out again. Section 8.3 of RFC 8555. */
module AcmeSolvers {
  import opened Events
  import opened Texts
  import opened HttpRoutes

  /** What became of a publish: nothing, bytes stored but the log not written, or all of it. */
  datatype Publishing = Rejected | StoredOnly | Published

  datatype ChallengeState = ChallengeState(hostname: string, token: string, fixContent: string)

  /** The stored zones, and the state files by sanitised key. */
  datatype State = State(zones: map<StorePath, HttpZone>, files: map<string, ChallengeState>)

  /** Where the zone of a hostname is stored. Nothing is assumed of it. */
  type Place = string -> StorePath

  // ---------------------------------------------------------------------------------------------
  // Keys, paths and policies

  function Replaced(c: char): char {
    if c in "/\\:?&=|" then '_' else c
  }

  function SanitizeKey(key: string): string {
    var trimmed := TrimSpace(ToLower(key));
    if trimmed == "" then "empty" else seq(|trimmed|, i requires 0 <= i < |trimmed| => Replaced(trimmed[i]))
  }

  function Http01Key(hostname: string, token: string): string {
    hostname + "|" + token
  }

  function FileOf(hostname: string, token: string): string {
    SanitizeKey(Http01Key(hostname, token))
  }

  function ChallengePath(token: string): string {
    "/.well-known/acme-challenge/" + token
  }

  predicate IsChallenge(p: Policy, token: string) {
    p.kind == Exact && p.pathname == ChallengePath(token) && p.fixContent != ""
  }

  function ChallengePolicy(token: string, content: string): Policy {
    Policy("", Exact, ChallengePath(token), [], [], content, true)
  }

  /** The policies that are not challenges for the token, in order. */
  function Without(ps: seq<Policy>, token: string): seq<Policy> {
    if ps == [] then []
    else
      var last := ps[|ps| - 1];
      Without(ps[..|ps| - 1], token) + if IsChallenge(last, token) then [] else [last]
  }

  /** Of one policy, an edit leaves out exactly the one whose kind is exact, whose path is the token's
      and that has content of its own. */
  lemma WithoutOne(p: Policy, token: string)
    ensures Without([p], token) ==
            if p.kind == Exact && p.pathname == "/.well-known/acme-challenge/" + token && p.fixContent != "" then []
            else [p]
  {
    assert [p][..0] == [];
  }

  /** Of a route, an edit keeps what it keeps of either part, in order. */
  lemma {:induction false} WithoutConcat(a: seq<Policy>, b: seq<Policy>, token: string)
    ensures Without(a + b, token) == Without(a, token) + Without(b, token)
  {
    hide Without, IsChallenge;
    if b == [] {
      WithoutNone(b, token);
      assert a + b == a && b[..0] == b;
    } else {
      var n := |b| - 1;
      assert a + b == a + b[..n] + [b[n]] && b == b[..n] + [b[n]];
      WithoutConcat(a, b[..n], token);
      WithoutAppend(a + b[..n], b[n], token);
      WithoutAppend(b[..n], b[n], token);
    }
  }

  lemma WithoutAppend(ps: seq<Policy>, p: Policy, token: string)
    ensures Without(ps + [p], token) == Without(ps, token) + if IsChallenge(p, token) then [] else [p]
  {
    hide IsChallenge;
    assert (ps + [p])[..|ps|] == ps;
  }

  // ---------------------------------------------------------------------------------------------
  // What the two operations do

  /** The route of a stored zone; no zone is an empty route, and a zone may fail to decode. */
  function RouteAt(zones: map<StorePath, HttpZone>, place: StorePath): Option<seq<Policy>> {
    if place !in zones then Some([])
    else if AllDecode(zones[place].policies) then Some(DecodedAll(zones[place].policies)) else None
  }

  /** The edit both operations make of a hostname's route: `front` goes first, the token's own
      challenge policies go out. Also, whether the edited route was published in full. */
  function Edited(place: Place, zones: map<StorePath, HttpZone>, host: string, front: seq<Policy>, token: string,
                  publishing: Publishing): (map<StorePath, HttpZone>, bool)
  {
    match RouteAt(zones, place(host))
    case None => (zones, false)
    case Some(route) =>
      var next := front + Without(route, token);
      if publishing.Rejected? || !Buildable(host, next) then (zones, false)
      else (zones[place(host) := BuiltZone(host, next)], publishing.Published?)
  }

  /** The state after Present, and whether it reports success. */
  function Presented(place: Place, s: State, host: string, token: string, content: string,
                     publishing: Publishing, saves: bool): (State, bool)
  {
    if host == "" || token == "" || content == "" then (s, false)
    else
      var edit := Edited(place, s.zones, host, [ChallengePolicy(token, content)], token, publishing);
      if !edit.1 || !saves then (s.(zones := edit.0), false)
      else (State(edit.0, s.files[FileOf(host, token) := ChallengeState(host, token, content)]), true)
  }

  /** The state after Cleanup, and whether it reports success. */
  function CleanedUp(place: Place, s: State, host: string, token: string,
                     publishing: Publishing, deletes: bool): (State, bool)
  {
    if host == "" || token == "" then (s, false)
    else if FileOf(host, token) !in s.files then (s, true)
    else
      var file := s.files[FileOf(host, token)];
      var edit := Edited(place, s.zones, file.hostname, [], file.token, publishing);
      if !edit.1 || !deletes then (s.(zones := edit.0), false)
      else (State(edit.0, s.files - {FileOf(host, token)}), true)
  }

  // ---------------------------------------------------------------------------------------------
  // The solver

  class Controller {
    const place: Place
    var zones: map<StorePath, HttpZone>

    constructor (place: Place)
      ensures this.place == place && zones == map[]
    {
      this.place := place;
      zones := map[];
    }

    /** The stored route, or an empty one for a hostname that has none. */
    method ReadHTTPRouteOrEmpty(hostname: string) returns (r: Result<HTTPRouteBuilder, DecodeError>)
      ensures r.Ok? <==> RouteAt(zones, place(hostname)).Some?
      ensures place(hostname) !in zones ==> r.Ok? && r.value.hostName == hostname && r.value.policies == []
      ensures r.Ok? ==>
                && fresh(r.value) && r.value.Full()
                && (forall i :: 0 <= i < |r.value.policies| ==> fresh(r.value.policies[i]))
                && r.value.Values() == RouteAt(zones, place(hostname)).value
    {
      var route := new HTTPRouteBuilder();
      if place(hostname) !in zones {
        route.hostName := hostname;
        return Ok(route);
      }
      var err := route.From(zones[place(hostname)]);
      if err.Some? {
        return Err(err.value);
      }
      return Ok(route);
    }

    method PublishHTTPRoute(hostname: string, route: HTTPRouteBuilder, publishing: Publishing) returns (ok: bool)
      requires route.Full()
      modifies this`zones
      ensures var built := old(route.Values());
              && ok == (publishing.Published? && Buildable(route.hostName, built))
              && zones == if publishing.Rejected? || !Buildable(route.hostName, built) then old(zones)
                          else old(zones)[place(hostname) := BuiltZone(route.hostName, built)]
    {
      hide Buildable, BuiltZone;
      var built := route.Build();
      if built.Err? || publishing.Rejected? {
        return false;
      }
      zones := zones[place(hostname) := built.value];
      return publishing.Published?;
    }
  }

  class HTTP01Solver {
    const controller: Controller
    var files: map<string, ChallengeState>

    constructor (controller: Controller)
      ensures this.controller == controller && files == map[]
    {
      this.controller := controller;
      files := map[];
    }

    ghost function Now(): State
      reads this, controller
    {
      State(controller.zones, files)
    }

    /** Reads the hostname's route, edits it and publishes it. */
    method Edit(hostname: string, token: string, content: Option<string>, publishing: Publishing) returns (ok: bool)
      modifies controller`zones
      ensures (controller.zones, ok)
           == Edited(controller.place, old(controller.zones), hostname,
                     if content.Some? then [ChallengePolicy(token, content.value)] else [], token, publishing)
    {
      hide Buildable, BuiltZone, RouteAt, Without, ChallengesGone, ChallengePolicy, ChallengePath, NormalForm, FileOf;
      var read := controller.ReadHTTPRouteOrEmpty(hostname);
      if read.Err? {
        return false;
      }
      var route := read.value;
      var kept := Filtered(route, token);
      ghost var values := Without(route.Values(), token);
      var front: seq<HTTPPolicyBuilder?> := [];
      if content.Some? {
        var challenge := NewChallenge(token, content.value);
        front := [challenge];
      }
      route.hostName := hostname;
      route.policies := front + kept;
      ghost var first := if content.Some? then [ChallengePolicy(token, content.value)] else [];
      assert route.Values() == first + values;
      ok := controller.PublishHTTPRoute(hostname, route, publishing);
    }

    method Present(hostname: string, token: string, fixContent: string, publishing: Publishing, saves: bool)
      returns (ok: bool)
      modifies this`files, controller`zones
      ensures (Now(), ok) == Presented(controller.place, old(Now()), hostname, token, fixContent, publishing, saves)
      ensures hostname == "" || token == "" || fixContent == "" ==> !ok && Now() == old(Now())
      ensures files == if ok then old(files)[FileOf(hostname, token) := ChallengeState(hostname, token, fixContent)]
                       else old(files)
    {
      hide Edited, FileOf;
      if hostname == "" || token == "" || fixContent == "" {
        return false;
      }
      ok := Edit(hostname, token, Some(fixContent), publishing);
      if ok {
        ok := saves;
        if saves {
          files := files[FileOf(hostname, token) := ChallengeState(hostname, token, fixContent)];
        }
      }
    }

    method Cleanup(hostname: string, token: string, publishing: Publishing, deletes: bool) returns (ok: bool)
      modifies this`files, controller`zones
      ensures (Now(), ok) == CleanedUp(controller.place, old(Now()), hostname, token, publishing, deletes)
      ensures hostname == "" || token == "" ==> !ok && Now() == old(Now())
      ensures hostname != "" && token != "" && FileOf(hostname, token) !in old(files) ==> ok && Now() == old(Now())
      ensures files == if ok then old(files) - {FileOf(hostname, token)} else old(files)
    {
      hide Edited, FileOf;
      if hostname == "" || token == "" {
        return false;
      }
      if FileOf(hostname, token) !in files {
        return true;
      }
      var state := files[FileOf(hostname, token)];
      ok := Edit(state.hostname, state.token, None, publishing);
      if ok {
        ok := deletes;
        if deletes {
          files := files - {FileOf(hostname, token)};
        }
      }
    }
  }

  method NewChallenge(token: string, content: string) returns (challenge: HTTPPolicyBuilder)
    ensures fresh(challenge)
    ensures challenge.Value() == ChallengePolicy(token, content)
         == Policy("", Exact, "/.well-known/acme-challenge/" + token, [], [], content, true)
  {
    challenge := new HTTPPolicyBuilder();
    challenge.WithExactPath(ChallengePath(token));
    challenge.WithFixContent(content);
    challenge.WithAllowRawAccess(true);
  }

  /** Of these policies, those are kept that are not of exact kind, at the token's path and with content. */
  ghost predicate ChallengesGone(kept: seq<HTTPPolicyBuilder?>, policies: seq<HTTPPolicyBuilder?>, token: string)
    requires null !in policies
    reads policies
  {
    && (forall p :: p in kept ==> p in policies)
    && (forall p :: p in policies ==>
          (p in kept <==>
           !(p.kind == Exact && p.pathname == "/.well-known/acme-challenge/" + token && p.fixContent != "")))
  }

  /** The loop that leaves out the token's own challenge policies. */
  method Filtered(route: HTTPRouteBuilder, token: string) returns (kept: seq<HTTPPolicyBuilder?>)
    requires route.Full()
    ensures |kept| == |Without(route.Values(), token)|
    ensures forall i :: 0 <= i < |kept| ==> kept[i] in route.policies && kept[i] != null
    ensures forall i :: 0 <= i < |kept| ==> kept[i].Value() == Without(route.Values(), token)[i]
    ensures ChallengesGone(kept, route.policies, token)
  {
    hide IsChallenge, Without;
    WithoutNone(route.Values(), token);
    var policies := route.policies;
    kept := [];
    for i := 0 to |policies|
      invariant |kept| == |Without(route.Values()[..i], token)|
      invariant forall j :: 0 <= j < |kept| ==> kept[j] in policies && kept[j] != null
      invariant forall p :: p in kept <==> p in policies[..i] && p != null && !IsChallenge(p.Value(), token)
      invariant forall j :: 0 <= j < |kept| ==> kept[j].Value() == Without(route.Values()[..i], token)[j]
    {
      assert route.Values()[..i + 1] == route.Values()[..i] + [route.Values()[i]];
      WithoutAppend(route.Values()[..i], route.Values()[i], token);
      if policies[i] != null && IsChallenge(policies[i].Value(), token) {
        continue;
      }
      kept := kept + [policies[i]];
    }
    assert route.Values()[..|policies|] == route.Values() && policies[..|policies|] == policies;
    ChallengesAre(token);
  }

  lemma WithoutNone(ps: seq<Policy>, token: string)
    ensures Without(ps[..0], token) == []
  {
  }

  lemma ChallengesAre(token: string)
    ensures forall p: Policy :: IsChallenge(p, token) <==>
              p.kind == Exact && p.pathname == "/.well-known/acme-challenge/" + token && p.fixContent != ""
  {
  }
}
