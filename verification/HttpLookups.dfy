/** The HTTP engine's routing: the first policy of a zone whose selector matches the request. */
module HttpLookups {
  import opened Events
  import opened HttpRoutes
  import opened ZoneSelection

  /** What routing reads of a request: its path, and the first query or header value of a name. */
  datatype Request = Request(path: string, query: string -> string, header: string -> string)

  /** The regular expression matcher: None for an expression that does not compile. */
  type Matcher = (string, string) -> Option<bool>

  datatype Verdict = NoMatch | Match(prune: string) | Broken

  datatype Answer = Served(backend: string, prune: string, fixContent: string, allowRawAccess: bool)
                  | Failed
                  | NoRoute

  // ---------------------------------------------------------------------------------------------
  // One policy

  predicate IsPrefix(prefix: string, s: string) {
    |prefix| <= |s| && s[..|prefix|] == prefix
  }

  predicate AllMatch(items: seq<KeyValue>, lookup: string -> string) {
    forall i :: 0 <= i < |items| ==> lookup(items[i].key) == items[i].value
  }

  function Decided(matches: bool, prune: string): Verdict {
    if matches then Match(prune) else NoMatch
  }

  function PathVerdict(path: PathUnion, requestPath: string, regex: Matcher): Verdict {
    match path
    case ExactPath(text) => Decided(requestPath == text, "")
    case PrefixPath(text) => Decided(IsPrefix(text, requestPath), text)
    case RegexPath(text) => (match regex(text, requestPath) case None => Broken case Some(ok) => Decided(ok, ""))
    case UnknownPath => Broken
  }

  function VerdictOf(m: HttpPolicy, r: Request, regex: Matcher): Verdict {
    match m.selector
    case ByPathname(_, path) => PathVerdict(path, r.path, regex)
    case ByQuery(items) => Decided(AllMatch(items, r.query), "")
    case ByHeader(items) => Decided(AllMatch(items, r.header), "")
    case UnknownSelector => Broken
  }

  method MatchKeyValues(items: seq<KeyValue>, lookup: string -> string) returns (ok: bool)
    ensures ok == AllMatch(items, lookup)
  {
    for i := 0 to |items|
      invariant forall j :: 0 <= j < i ==> lookup(items[j].key) == items[j].value
    {
      if lookup(items[i].key) != items[i].value {
        return false;
      }
    }
    return true;
  }

  method MatchPathname(path: PathUnion, requestPath: string, regex: Matcher) returns (v: Verdict)
    ensures v == PathVerdict(path, requestPath, regex)
  {
    match path {
      case ExactPath(value) => return if requestPath == value then Match("") else NoMatch;
      case PrefixPath(value) =>
        if |requestPath| >= |value| && requestPath[..|value|] == value {
          return Match(value);
        }
        return NoMatch;
      case RegexPath(value) =>
        var ok := regex(value, requestPath);
        if ok.None? {
          return Broken;
        }
        return if ok.value then Match("") else NoMatch;
      case UnknownPath => return Broken;
    }
  }

  /** The verdict on a message is the meaning of every policy that builds to it. */
  method MatchPolicy(m: HttpPolicy, r: Request, regex: Matcher) returns (v: Verdict)
    ensures v == VerdictOf(m, r, regex)
    ensures forall p :: Built(p) == Ok(m) ==> v == Takes(p, r, regex)
  {
    forall p | Built(p) == Ok(m) ensures VerdictOf(m, r, regex) == Takes(p, r, regex) {
      BuiltTakes(p, r, regex);
    }
    match m.selector {
      case ByPathname(_, path) => v := MatchPathname(path, r.path, regex);
      case ByQuery(items) =>
        var ok := MatchKeyValues(items, r.query);
        v := if ok then Match("") else NoMatch;
      case ByHeader(items) =>
        var ok := MatchKeyValues(items, r.header);
        v := if ok then Match("") else NoMatch;
      case UnknownSelector => v := Broken;
    }
  }

  // ---------------------------------------------------------------------------------------------
  // A zone's policies

  function AnswerOf(m: HttpPolicy, v: Verdict): Answer
    requires !v.NoMatch?
  {
    match v
    case Match(prune) => Served(m.backend, prune, m.fixContent, m.allowRawAccess)
    case Broken => Failed
  }

  /** The answer for a zone: that of its first policy that does not pass the request on. */
  function Lookup(ms: seq<HttpPolicy>, r: Request, regex: Matcher): Answer {
    if ms == [] then NoRoute
    else
      var v := VerdictOf(ms[0], r, regex);
      if v.NoMatch? then Lookup(ms[1..], r, regex) else AnswerOf(ms[0], v)
  }

  /** The answer for a request to a host: that of the zone chosen for the host. */
  method LookupBackend(zones: Zones<HttpZone>, host: string, r: Request, regex: Matcher) returns (answer: Answer)
    ensures answer == match FirstStored(zones, IngressCandidates(host))
                      case NotExist => NoRoute
                      case Unreadable => Failed
                      case Zone(zone) => Lookup(zone.policies, r, regex)
  {
    hide VerdictOf, FirstStored, IngressCandidates;
    var found := FindZone(zones, host);
    if found.NotExist? {
      return NoRoute;
    }
    if found.Unreadable? {
      return Failed;
    }
    var policies := found.zone.policies;
    for i := 0 to |policies|
      invariant Lookup(policies[i..], r, regex) == Lookup(policies, r, regex)
    {
      var v := MatchPolicy(policies[i], r, regex);
      if v.NoMatch? {
        continue;
      }
      return AnswerOf(policies[i], v);
    }
    return NoRoute;
  }

  lemma {:induction false} FirstDecides(ms: seq<HttpPolicy>, i: nat, r: Request, regex: Matcher)
    requires i <= |ms| && forall j :: 0 <= j < i ==> VerdictOf(ms[j], r, regex).NoMatch?
    ensures i < |ms| && !VerdictOf(ms[i], r, regex).NoMatch? ==>
              Lookup(ms, r, regex) == AnswerOf(ms[i], VerdictOf(ms[i], r, regex))
    ensures i == |ms| ==> Lookup(ms, r, regex) == NoRoute
  {
    if i > 0 {
      assert VerdictOf(ms[0], r, regex).NoMatch?;
      FirstDecides(ms[1..], i - 1, r, regex);
    }
  }

  // ---------------------------------------------------------------------------------------------
  // What a route means, told from its builder

  /** Whether a policy takes a request: only the selector it keeps is asked. */
  function Takes(p: Policy, r: Request, regex: Matcher): Verdict {
    if p.pathname != "" then
      match p.kind
      case Exact => Decided(r.path == p.pathname, "")
      case Prefix => Decided(IsPrefix(p.pathname, r.path), p.pathname)
      case Regex => (match regex(p.pathname, r.path) case None => Broken case Some(ok) => Decided(ok, ""))
      case UnknownKind(_) => Broken
    else if p.query != [] then Decided(forall kv :: kv in p.query ==> r.query(kv.key) == kv.value, "")
    else Decided(forall kv :: kv in p.header ==> r.header(kv.key) == kv.value, "")
  }

  /** A prefix takes the paths that go on from it, and is what is cut off them. */
  lemma PrefixTakes(p: Policy, r: Request, regex: Matcher)
    requires p.pathname != "" && p.kind == Prefix
    ensures Takes(p, r, regex) == if exists rest :: r.path == p.pathname + rest then Match(p.pathname) else NoMatch
  {
    if IsPrefix(p.pathname, r.path) {
      assert r.path == p.pathname + r.path[|p.pathname|..];
    }
  }

  lemma BuiltTakes(p: Policy, r: Request, regex: Matcher)
    requires Built(p).Ok?
    ensures VerdictOf(Built(p).value, r, regex) == Takes(p, r, regex)
  {
    hide Incomplete;
  }

  /** The engine serves the first policy of the route whose kept selector takes the request, fails
      when an expression that does not compile comes first, and finds nothing when none takes it. */
  lemma RoutedAsBuilt(host: string, ps: seq<Policy>, i: nat, r: Request, regex: Matcher)
    requires Buildable(host, ps) && i <= |ps|
    requires forall j :: 0 <= j < i ==> Takes(ps[j], r, regex).NoMatch?
    ensures var answer := Lookup(BuiltZone(host, ps).policies, r, regex);
            && (i == |ps| ==> answer == NoRoute)
            && (i < |ps| && Takes(ps[i], r, regex).Broken? ==> answer == Failed)
            && (i < |ps| && Takes(ps[i], r, regex).Match? ==>
                  answer == Served(ps[i].backend, Takes(ps[i], r, regex).prune, ps[i].fixContent, ps[i].allowRawAccess))
  {
    hide Takes, VerdictOf, Selected, Blank;
    var ms := BuiltZone(host, ps).policies;
    forall j | 0 <= j < |ps| ensures VerdictOf(ms[j], r, regex) == Takes(ps[j], r, regex) {
      BuiltTakes(ps[j], r, regex);
    }
    FirstDecides(ms, i, r, regex);
  }

  /** A route and its normal form answer every request alike. */
  lemma NormalFormRoutesAlike(p: Policy, r: Request, regex: Matcher)
    requires Built(p).Ok?
    ensures Takes(NormalForm(p), r, regex) == Takes(p, r, regex)
  {
    BuiltTakes(p, r, regex);
    PolicyRoundTrip(p);
    BuiltTakes(NormalForm(p), r, regex);
  }
}
