/** HTTP routes: the builders an operator fills in, and the zone messages they are stored as. */
module HttpRoutes {
  import opened Events
  import opened Texts

  datatype PathKind = Exact | Prefix | Regex | UnknownKind(code: nat)

  datatype KeyValue = KeyValue(key: string, value: string)

  /** A pathname message holds its kind and, beside it, a union that says which text it holds. */
  datatype PathUnion = ExactPath(text: string) | PrefixPath(text: string) | RegexPath(text: string) | UnknownPath

  datatype Selector =
    | ByPathname(kind: PathKind, path: PathUnion)
    | ByQuery(items: seq<KeyValue>)
    | ByHeader(items: seq<KeyValue>)
    | UnknownSelector

  datatype HttpPolicy = HttpPolicy(backend: string, selector: Selector, fixContent: string, allowRawAccess: bool)

  datatype HttpZone = HttpZone(hostname: string, policies: seq<HttpPolicy>)

  /** The fields of a policy builder. */
  datatype Policy = Policy(backend: string, kind: PathKind, pathname: string, query: seq<KeyValue>,
                           header: seq<KeyValue>, fixContent: string, allowRawAccess: bool)

  datatype PolicyError = NoContent | BadKind | NoSelector | BlankKey(item: nat) | BlankValue(item: nat)

  datatype BuildError = NoHostname | NoPolicy(index: nat) | BadPolicy(index: nat, reason: PolicyError)

  datatype DecodeError = UnsupportedSelector | UnsupportedPathname

  // ---------------------------------------------------------------------------------------------
  // Building

  predicate Blank(s: string) {
    TrimSpace(s) == ""
  }

  /** The first incomplete item from the i-th on. */
  function Incomplete(items: seq<KeyValue>, i: nat): Option<PolicyError>
    decreases |items| - i
  {
    if i >= |items| then None
    else if Blank(items[i].key) then Some(BlankKey(i))
    else if Blank(items[i].value) then Some(BlankValue(i))
    else Incomplete(items, i + 1)
  }

  function Selected(p: Policy): Result<Selector, PolicyError> {
    if p.pathname != "" then
      match p.kind
      case Exact => Ok(ByPathname(Exact, ExactPath(p.pathname)))
      case Prefix => Ok(ByPathname(Prefix, PrefixPath(p.pathname)))
      case Regex => Ok(ByPathname(Regex, RegexPath(p.pathname)))
      case UnknownKind(_) => Err(BadKind)
    else if p.query != [] then
      match Incomplete(p.query, 0) case Some(e) => Err(e) case None => Ok(ByQuery(p.query))
    else if p.header != [] then
      match Incomplete(p.header, 0) case Some(e) => Err(e) case None => Ok(ByHeader(p.header))
    else Err(NoSelector)
  }

  function Built(p: Policy): Result<HttpPolicy, PolicyError> {
    if p.backend == "" && p.fixContent == "" then Err(NoContent)
    else match Selected(p)
      case Err(e) => Err(e)
      case Ok(selector) => Ok(HttpPolicy(p.backend, selector, p.fixContent, p.allowRawAccess))
  }

  // ---------------------------------------------------------------------------------------------
  // Which policies build

  ghost predicate HasText(s: string) {
    exists i :: 0 <= i < |s| && !IsSpace(s[i])
  }

  /** Every key and every value has a character that is no space. */
  ghost predicate Complete(items: seq<KeyValue>) {
    forall i :: 0 <= i < |items| ==> HasText(items[i].key) && HasText(items[i].value)
  }

  lemma BlankIff(s: string)
    ensures Blank(s) <==> !HasText(s)
  {
    hide IsSpace, TrimSpace;
    var a, b := SpaceTrimmed(s);
    var t := TrimSpace(s);
    if t == "" {
      assert forall i :: 0 <= i < |s| ==> IsSpace(s[i]);
    } else {
      assert s[|a|] == t[0];
    }
  }

  /** What is reported is the first incomplete item, and its key before its value. */
  lemma {:induction false} IncompleteIs(items: seq<KeyValue>, i: nat)
    requires i <= |items| && Complete(items[..i])
    ensures Complete(items) ==> Incomplete(items, i).None?
    ensures match Incomplete(items, i)
            case None => Complete(items)
            case Some(BlankKey(k)) => k < |items| && Complete(items[..k]) && !HasText(items[k].key)
            case Some(BlankValue(k)) => k < |items| && Complete(items[..k])
                                        && HasText(items[k].key) && !HasText(items[k].value)
            case Some(_) => false
    decreases |items| - i
  {
    hide HasText, Blank;
    if i == |items| {
      assert items[..i] == items;
    } else {
      BlankIff(items[i].key);
      BlankIff(items[i].value);
      if !Blank(items[i].key) && !Blank(items[i].value) {
        IncompleteIs(items, i + 1);
      }
    }
  }

  /** A policy builds exactly when it has content, and a pathname of a known kind, or no pathname and
      a complete query, or neither and a complete header. */
  ghost predicate Builds(p: Policy) {
    && (p.backend != "" || p.fixContent != "")
    && if p.pathname != "" then p.kind == Exact || p.kind == Prefix || p.kind == Regex
       else if p.query != [] then Complete(p.query)
       else p.header != [] && Complete(p.header)
  }

  /** The items a policy without a pathname is selected by. */
  function Items(p: Policy): seq<KeyValue> {
    if p.query != [] then p.query else p.header
  }

  lemma BuildsIff(p: Policy)
    ensures Built(p).Ok? <==> Builds(p)
  {
    hide Incomplete, Complete;
    assert Complete(p.query[..0]) && Complete(p.header[..0]) by { NoItems(); }
    IncompleteIs(p.query, 0);
    IncompleteIs(p.header, 0);
  }

  /** Content is asked for first, then the selector; of its items the first incomplete one is named. */
  lemma RefusalIs(p: Policy)
    requires Built(p).Err?
    ensures match Built(p).error
            case NoContent => p.backend == "" && p.fixContent == ""
            case BadKind => (p.backend != "" || p.fixContent != "") && p.pathname != "" && p.kind.UnknownKind?
            case NoSelector => (p.backend != "" || p.fixContent != "") && p.pathname == "" && Items(p) == []
            case BlankKey(k) => (p.backend != "" || p.fixContent != "") && p.pathname == ""
                                && k < |Items(p)| && Complete(Items(p)[..k]) && !HasText(Items(p)[k].key)
            case BlankValue(k) => (p.backend != "" || p.fixContent != "") && p.pathname == ""
                                  && k < |Items(p)| && Complete(Items(p)[..k])
                                  && HasText(Items(p)[k].key) && !HasText(Items(p)[k].value)
  {
    hide Incomplete, Complete;
    assert Complete(Items(p)[..0]) by { NoItems(); }
    IncompleteIs(Items(p), 0);
  }

  lemma NoItems()
    ensures Complete([])
  {
  }

  predicate AllBuild(ps: seq<Policy>) {
    forall i :: 0 <= i < |ps| ==> Built(ps[i]).Ok?
  }

  predicate Buildable(host: string, ps: seq<Policy>) {
    !Blank(host) && AllBuild(ps)
  }

  function BuiltAll(ps: seq<Policy>): seq<HttpPolicy>
    requires AllBuild(ps)
  {
    seq(|ps|, i requires 0 <= i < |ps| => Built(ps[i]).value)
  }

  function BuiltZone(host: string, ps: seq<Policy>): HttpZone
    requires Buildable(host, ps)
  {
    HttpZone(host, BuiltAll(ps))
  }

  // ---------------------------------------------------------------------------------------------
  // Decoding

  predicate Decodable(m: HttpPolicy) {
    match m.selector
    case UnknownSelector => false
    case ByPathname(_, path) => !path.UnknownPath?
    case _ => true
  }

  /** What a builder of pathname kind `kind` decodes a message to. */
  function Decoded(m: HttpPolicy, kind: PathKind): Policy
    requires Decodable(m)
  {
    match m.selector
    case ByPathname(k, path) => Policy(m.backend, k, path.text, [], [], m.fixContent, m.allowRawAccess)
    case ByQuery(items) => Policy(m.backend, kind, "", items, [], m.fixContent, m.allowRawAccess)
    case ByHeader(items) => Policy(m.backend, kind, "", [], items, m.fixContent, m.allowRawAccess)
  }

  predicate AllDecode(ms: seq<HttpPolicy>) {
    forall i :: 0 <= i < |ms| ==> Decodable(ms[i])
  }

  /** A zone is decoded into fresh policy builders. */
  function DecodedAll(ms: seq<HttpPolicy>): seq<Policy>
    requires AllDecode(ms)
  {
    seq(|ms|, i requires 0 <= i < |ms| => Decoded(ms[i], Exact))
  }

  // ---------------------------------------------------------------------------------------------
  // The normal form: one selector kept, pathname before query before header

  function NormalForm(p: Policy): Policy {
    if p.pathname != "" then p.(query := [], header := [])
    else if p.query != [] then p.(kind := Exact, header := [])
    else p.(kind := Exact)
  }

  function NormalForms(ps: seq<Policy>): seq<Policy> {
    seq(|ps|, i requires 0 <= i < |ps| => NormalForm(ps[i]))
  }

  lemma PolicyRoundTrip(p: Policy)
    requires Built(p).Ok?
    ensures Decodable(Built(p).value) && Decoded(Built(p).value, Exact) == NormalForm(p)
    ensures Built(NormalForm(p)) == Built(p)
    ensures NormalForm(NormalForm(p)) == NormalForm(p)
  {
  }

  /** Building then decoding gives the normal form; building that again gives the same zone. */
  lemma RouteRoundTrip(host: string, ps: seq<Policy>)
    requires Buildable(host, ps)
    ensures AllDecode(BuiltZone(host, ps).policies)
    ensures BuiltZone(host, ps).hostname == host && DecodedAll(BuiltZone(host, ps).policies) == NormalForms(ps)
    ensures Buildable(host, NormalForms(ps)) && BuiltZone(host, NormalForms(ps)) == BuiltZone(host, ps)
  {
    forall i | 0 <= i < |ps|
      ensures Decodable(Built(ps[i]).value) && Decoded(Built(ps[i]).value, Exact) == NormalForm(ps[i])
      ensures Built(NormalForm(ps[i])) == Built(ps[i])
    {
      PolicyRoundTrip(ps[i]);
    }
  }

  /** A message whose kind and union agree. */
  predicate Coherent(m: HttpPolicy) {
    m.selector.ByPathname? ==>
      match m.selector.path
      case ExactPath(_) => m.selector.kind == Exact
      case PrefixPath(_) => m.selector.kind == Prefix
      case RegexPath(_) => m.selector.kind == Regex
      case UnknownPath => false
  }

  /** A message that decodes and builds again is in normal form once decoded, and comes back
      unchanged exactly when its kind and union agree. */
  lemma RebuiltIffCoherent(m: HttpPolicy)
    requires Decodable(m) && Built(Decoded(m, Exact)).Ok?
    ensures NormalForm(Decoded(m, Exact)) == Decoded(m, Exact)
    ensures Built(Decoded(m, Exact)).value == m <==> Coherent(m)
  {
  }

  // ---------------------------------------------------------------------------------------------
  // The builders

  class HTTPPolicyBuilder {
    var backend: string
    var kind: PathKind
    var pathname: string
    var query: seq<KeyValue>
    var header: seq<KeyValue>
    var fixContent: string
    var allowRawAccess: bool

    constructor ()
      ensures Value() == Policy("", Exact, "", [], [], "", false)
    {
      backend, kind, pathname, query, header, fixContent, allowRawAccess := "", Exact, "", [], [], "", false;
    }

    function Value(): Policy
      reads this
    {
      Policy(backend, kind, pathname, query, header, fixContent, allowRawAccess)
    }

    method WithExactPath(path: string)
      modifies this
      ensures Value() == old(Value()).(kind := Exact, pathname := path, query := [], header := [])
    {
      kind, pathname, query, header := Exact, path, [], [];
    }

    method WithFixContent(content: string)
      modifies this
      ensures Value() == old(Value()).(fixContent := content)
    {
      fixContent := content;
    }

    method WithAllowRawAccess(allow: bool)
      modifies this
      ensures Value() == old(Value()).(allowRawAccess := allow)
    {
      allowRawAccess := allow;
    }

    method From(m: HttpPolicy) returns (err: Option<DecodeError>)
      modifies this
      ensures err.None? <==> Decodable(m)
      ensures err.None? ==> Value() == Decoded(m, old(kind))
    {
      backend, fixContent, allowRawAccess := m.backend, m.fixContent, m.allowRawAccess;
      pathname, query, header := "", [], [];
      match m.selector {
        case ByPathname(k, path) =>
          kind := k;
          match path {
            case ExactPath(text) => pathname := text;
            case PrefixPath(text) => pathname := text;
            case RegexPath(text) => pathname := text;
            case UnknownPath => return Some(UnsupportedPathname);
          }
        case ByQuery(items) => query := Copied(items);
        case ByHeader(items) => header := Copied(items);
        case UnknownSelector => return Some(UnsupportedSelector);
      }
      return None;
    }

    method Build() returns (r: Result<HttpPolicy, PolicyError>)
      ensures r == Built(Value())
      ensures r.Ok? <==> Builds(Value())
    {
      BuildsIff(Value());
      hide Builds, Complete;
      if backend == "" && fixContent == "" {
        return Err(NoContent);
      }
      var selector: Selector;
      if pathname != "" {
        match kind {
          case Exact => selector := ByPathname(kind, ExactPath(pathname));
          case Prefix => selector := ByPathname(kind, PrefixPath(pathname));
          case Regex => selector := ByPathname(kind, RegexPath(pathname));
          case UnknownKind(_) => return Err(BadKind);
        }
      } else if |query| > 0 {
        var items := SetKeyValues(query);
        if items.Err? {
          return Err(items.error);
        }
        selector := ByQuery(items.value);
      } else if |header| > 0 {
        var items := SetKeyValues(header);
        if items.Err? {
          return Err(items.error);
        }
        selector := ByHeader(items.value);
      } else {
        return Err(NoSelector);
      }
      return Ok(HttpPolicy(backend, selector, fixContent, allowRawAccess));
    }
  }

  /** The item loop of a decoded query or header. */
  method Copied(items: seq<KeyValue>) returns (out: seq<KeyValue>)
    ensures out == items
  {
    out := [];
    for i := 0 to |items|
      invariant out == items[..i]
    {
      out := out + [KeyValue(items[i].key, items[i].value)];
    }
  }

  method SetKeyValues(items: seq<KeyValue>) returns (r: Result<seq<KeyValue>, PolicyError>)
    ensures r == match Incomplete(items, 0) case Some(e) => Err(e) case None => Ok(items)
  {
    var list := [];
    for i := 0 to |items|
      invariant list == items[..i]
      invariant Incomplete(items, 0) == Incomplete(items, i)
    {
      if Blank(items[i].key) {
        return Err(BlankKey(i));
      }
      if Blank(items[i].value) {
        return Err(BlankValue(i));
      }
      list := list + [items[i]];
    }
    assert list == items;
    return Ok(list);
  }

  class HTTPRouteBuilder {
    var hostName: string
    var policies: seq<HTTPPolicyBuilder?>

    constructor ()
      ensures hostName == "" && policies == []
    {
      hostName, policies := "", [];
    }

    ghost predicate Full()
      reads this
    {
      forall i :: 0 <= i < |policies| ==> policies[i] != null
    }

    ghost function Values(): seq<Policy>
      reads this, policies
      requires Full()
    {
      seq(|policies|, i requires 0 <= i < |policies| reads this, policies requires Full() => policies[i].Value())
    }

    method From(zone: HttpZone) returns (err: Option<DecodeError>)
      modifies this
      ensures err.None? <==> AllDecode(zone.policies)
      ensures err.None? ==> hostName == zone.hostname && Full() && Values() == DecodedAll(zone.policies)
      ensures err.None? ==> forall i :: 0 <= i < |policies| ==> fresh(policies[i])
    {
      hostName := zone.hostname;
      policies := [];
      for i := 0 to |zone.policies|
        invariant hostName == zone.hostname && |policies| == i && Full()
        invariant forall j :: 0 <= j < i ==> fresh(policies[j])
        invariant forall j :: 0 <= j < i ==>
                    Decodable(zone.policies[j]) && policies[j].Value() == Decoded(zone.policies[j], Exact)
      {
        var policy := new HTTPPolicyBuilder();
        var bad := policy.From(zone.policies[i]);
        if bad.Some? {
          return bad;
        }
        policies := policies + [policy];
      }
      assert forall j :: 0 <= j < |policies| ==> Values()[j] == DecodedAll(zone.policies)[j];
      return None;
    }

    /** Stops at the first policy that is missing or does not build. */
    method Build() returns (r: Result<HttpZone, BuildError>)
      ensures r.Ok? <==> Full() && Buildable(hostName, Values())
      ensures r.Ok? <==> HasText(hostName) && forall i :: 0 <= i < |policies| ==>
                           policies[i] != null && Builds(policies[i].Value())
      ensures r.Ok? ==> r.value == BuiltZone(hostName, Values())
      ensures r == Err(NoHostname) <==> Blank(hostName)
      ensures r.Err? && r.error != NoHostname ==>
                var i := r.error.index;
                && i < |policies| && (forall j :: 0 <= j < i ==> policies[j] != null && Built(policies[j].Value()).Ok?)
                && if policies[i] == null then r == Err(NoPolicy(i))
                   else Built(policies[i].Value()).Err? && r == Err(BadPolicy(i, Built(policies[i].Value()).error))
    {
      hide Built, Blank, Builds, HasText;
      BlankIff(hostName);
      if Blank(hostName) {
        return Err(NoHostname);
      }
      var list := [];
      for i := 0 to |policies|
        invariant |list| == i
        invariant forall j :: 0 <= j < i ==>
                    policies[j] != null && Built(policies[j].Value()) == Ok(list[j]) && Builds(policies[j].Value())
      {
        if policies[i] == null {
          return Err(NoPolicy(i));
        }
        var built := policies[i].Build();
        if built.Err? {
          assert Full() ==> Values()[i] == policies[i].Value();
          return Err(BadPolicy(i, built.error));
        }
        list := list + [built.value];
      }
      assert forall j :: 0 <= j < |list| ==> Built(Values()[j]) == Ok(list[j]);
      return Ok(HttpZone(hostName, list));
    }
  }
}
