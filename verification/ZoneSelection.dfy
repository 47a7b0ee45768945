/** Which zone answers for a name: the candidates, from the most specific on, and the first stored. */
module ZoneSelection {
  import opened Events
  import opened Texts
  import opened Names

  /** The stored zones by sanitised name, the file names being hashes of those. A file that exists
      but cannot be read holds None. */
  type Zones<Z> = map<string, Option<Z>>

  datatype Found<Z> = Zone(zone: Z) | Unreadable | NotExist

  predicate Stored<Z>(zones: Zones<Z>, name: string) {
    SanitizeZoneName(name) in zones
  }

  function Open<Z>(zones: Zones<Z>, name: string): Found<Z> {
    if !Stored(zones, name) then NotExist
    else match zones[SanitizeZoneName(name)] case None => Unreadable case Some(zone) => Zone(zone)
  }

  // ---------------------------------------------------------------------------------------------
  // Candidates

  /** The trimmed name the DNS server looks zones up for. */
  function DnsName(name: string): string {
    TrimDot(NormalizeName(name))
  }

  function IngressName(name: string): string {
    TrimDot(SanitizeZoneName(name))
  }

  /** Every label suffix of the name, the longest first. */
  function DnsCandidates(name: string): seq<string> {
    var n := DnsName(name);
    if n == "" then [] else seq(|Split(n)|, i requires 0 <= i < |Split(n)| => SuffixOf(n, i))
  }

  /** The name itself, then the wildcards of its proper label suffixes, the longest first. */
  function IngressCandidates(name: string): seq<string> {
    var n := IngressName(name);
    if n == "" then []
    else seq(|Split(n)|, i requires 0 <= i < |Split(n)| => if i == 0 then n else "*." + SuffixOf(n, i))
  }

  method DnsCandidateZones(name: string) returns (candidates: seq<string>)
    ensures candidates == DnsCandidates(name)
  {
    hide *;
    var trimmed := DnsName(name);
    ghost var all := DnsCandidates(name);
    CandidateCounts(name);
    candidates := [];
    if trimmed == "" {
      return;
    }
    var parts := Split(trimmed);
    for i := 0 to |parts|
      invariant candidates == all[..i]
    {
      DnsCandidateAt(name, i);
      candidates := candidates + [Join(parts[i..])];
    }
  }

  method IngressCandidateZones(name: string) returns (candidates: seq<string>)
    ensures candidates == IngressCandidates(name)
  {
    hide *;
    var trimmed := IngressName(name);
    ghost var all := IngressCandidates(name);
    CandidateCounts(name);
    if trimmed == "" {
      return [];
    }
    var parts := Split(trimmed);
    IngressCandidateAt(name, 0);
    candidates := [trimmed];
    for i := 1 to |parts|
      invariant candidates == all[..i]
    {
      IngressCandidateAt(name, i);
      candidates := candidates + ["*." + Join(parts[i..])];
    }
  }

  lemma CandidateCounts(name: string)
    ensures |DnsCandidates(name)| == if DnsName(name) == "" then 0 else |Split(DnsName(name))|
    ensures |IngressCandidates(name)| == if IngressName(name) == "" then 0 else |Split(IngressName(name))|
  {
  }

  lemma DnsCandidateAt(name: string, i: nat)
    requires DnsName(name) != "" && i < |Split(DnsName(name))| == |DnsCandidates(name)|
    ensures DnsCandidates(name)[i] == Join(Split(DnsName(name))[i..])
  {
  }

  lemma IngressCandidateAt(name: string, i: nat)
    requires IngressName(name) != "" && i < |Split(IngressName(name))| == |IngressCandidates(name)|
    ensures IngressCandidates(name)[i]
         == if i == 0 then IngressName(name) else "*." + Join(Split(IngressName(name))[i..])
  {
  }

  /** The first stored candidate. */
  function FirstStored<Z>(zones: Zones<Z>, candidates: seq<string>): Found<Z> {
    if candidates == [] then NotExist
    else
      var zone := Open(zones, candidates[0]);
      if zone.NotExist? then FirstStored(zones, candidates[1..]) else zone
  }

  method LookupForQuestion<Z>(zones: Zones<Z>, name: string) returns (r: Found<Z>)
    ensures r == FirstStored(zones, DnsCandidates(name))
  {
    hide Open, DnsCandidates;
    var candidates := DnsCandidateZones(name);
    for i := 0 to |candidates|
      invariant FirstStored(zones, candidates[i..]) == FirstStored(zones, candidates)
    {
      var zone := Open(zones, candidates[i]);
      if zone.NotExist? {
        continue;
      }
      return zone;
    }
    return NotExist;
  }

  method FindZone<Z>(zones: Zones<Z>, name: string) returns (r: Found<Z>)
    ensures r == FirstStored(zones, IngressCandidates(name))
  {
    hide Open, IngressCandidates;
    var candidates := IngressCandidateZones(name);
    for i := 0 to |candidates|
      invariant FirstStored(zones, candidates[i..]) == FirstStored(zones, candidates)
    {
      var zone := Open(zones, candidates[i]);
      if zone.NotExist? {
        continue;
      }
      return zone;
    }
    return NotExist;
  }

  // ---------------------------------------------------------------------------------------------
  // Which zone that is

  /** Either a candidate is chosen and none before it is stored, or none is stored at all. */
  lemma {:induction false} FirstStoredIs<Z>(zones: Zones<Z>, cs: seq<string>) returns (k: nat)
    ensures k <= |cs| && forall j :: 0 <= j < k ==> !Stored(zones, cs[j])
    ensures k < |cs| ==> Stored(zones, cs[k]) && FirstStored(zones, cs) == Open(zones, cs[k])
    ensures FirstStored(zones, cs) == NotExist <==> k == |cs|
  {
    hide Stored;
    if cs == [] {
      return 0;
    }
    OpenIs(zones, cs[0]);
    if Stored(zones, cs[0]) {
      return 0;
    }
    k := FirstStoredIs(zones, cs[1..]);
    assert forall j :: 0 < j <= k && j < |cs| ==> cs[j] == cs[1..][j - 1];
    k := k + 1;
  }

  lemma OpenIs<Z>(zones: Zones<Z>, name: string)
    ensures Open(zones, name).NotExist? <==> !Stored(zones, name)
  {
  }

  /** A suffix of n, other than n itself where only proper ones will do. */
  predicate Eligible(t: string, n: string, proper: bool) {
    LabelSuffix(t, n) && (proper ==> t != n)
  }

  /** s is the longest eligible suffix of n whose zone, named prefix + s, is stored. */
  ghost predicate Longest<Z>(zones: Zones<Z>, prefix: string, n: string, proper: bool, s: string) {
    && Eligible(s, n, proper) && Stored(zones, prefix + s)
    && forall t :: Eligible(t, n, proper) && Stored(zones, prefix + t) ==> |t| <= |s|
  }

  ghost predicate NoneStored<Z>(zones: Zones<Z>, prefix: string, n: string, proper: bool) {
    forall t :: Eligible(t, n, proper) ==> !Stored(zones, prefix + t)
  }

  lemma LongestIsUnique<Z>(zones: Zones<Z>, prefix: string, n: string, proper: bool, s: string, t: string)
    requires Longest(zones, prefix, n, proper, s) && Longest(zones, prefix, n, proper, t)
    ensures s == t
  {
    hide Stored;
  }

  /** The first stored suffix, in the order of the candidates, is the longest. */
  lemma FirstIsLongest<Z>(zones: Zones<Z>, prefix: string, n: string, proper: bool, k: nat)
    requires (if proper then 1 else 0) <= k <= |Split(n)|
    requires forall j :: (if proper then 1 else 0) <= j < k ==> !Stored(zones, prefix + SuffixOf(n, j))
    ensures k < |Split(n)| && Stored(zones, prefix + SuffixOf(n, k)) ==>
              Longest(zones, prefix, n, proper, SuffixOf(n, k))
    ensures k == |Split(n)| ==> NoneStored(zones, prefix, n, proper)
  {
    hide Stored, SuffixOf, Split, LabelSuffix;
    if k < |Split(n)| {
      SuffixIsLabelSuffix(n, k);
    }
    forall t | Eligible(t, n, proper) && Stored(zones, prefix + t)
      ensures k < |Split(n)| && |t| <= |SuffixOf(n, k)|
    {
      var i := LabelSuffixIsSuffix(t, n);
      if k < i {
        SuffixesShrink(n, k, i);
      }
    }
  }

  /** The DNS server opens the stored zone with the longest label suffix of the name, and finds none
      exactly when no suffix is stored. */
  lemma DnsChoiceIsMostSpecific<Z>(zones: Zones<Z>, name: string)
    requires DnsName(name) != ""
    ensures var n, r := DnsName(name), FirstStored(zones, DnsCandidates(name));
            && (r == NotExist <==> NoneStored(zones, "", n, false))
            && (r != NotExist <==> exists s :: Longest(zones, "", n, false, s))
            && forall s :: Longest(zones, "", n, false, s) ==> r == Open(zones, s)
  {
    hide Stored, SuffixOf, Split, Eligible, DnsName, Open, FirstStored;
    var n, cs := DnsName(name), DnsCandidates(name);
    var k := FirstStoredIs(zones, cs);
    assert forall i :: 0 <= i < |cs| ==> "" + SuffixOf(n, i) == cs[i];
    FirstIsLongest(zones, "", n, false, k);
    forall s | Longest(zones, "", n, false, s) && k < |cs| ensures "" + s == s && s == cs[k] {
      LongestIsUnique(zones, "", n, false, s, SuffixOf(n, k));
    }
  }

  /** The ingress engines open the zone of the exact name if it is stored, else the stored wildcard
      zone of the longest proper label suffix, and find none exactly when neither is stored. */
  lemma IngressChoiceIsMostSpecific<Z>(zones: Zones<Z>, name: string)
    requires IngressName(name) != ""
    ensures var n, r := IngressName(name), FirstStored(zones, IngressCandidates(name));
            && (Stored(zones, n) ==> r == Open(zones, n))
            && (r == NotExist <==> !Stored(zones, n) && NoneStored(zones, "*.", n, true))
            && (!Stored(zones, n) ==> (r != NotExist <==> exists s :: Longest(zones, "*.", n, true, s)))
            && (!Stored(zones, n) ==> forall s :: Longest(zones, "*.", n, true, s) ==> r == Open(zones, "*." + s))
  {
    hide Stored, SuffixOf, Split, Eligible, IngressName, Open, FirstStored;
    var n, cs := IngressName(name), IngressCandidates(name);
    var k := FirstStoredIs(zones, cs);
    assert cs[0] == n;
    if k > 0 {
      assert forall j :: 1 <= j < |cs| ==> cs[j] == "*." + SuffixOf(n, j);
      FirstIsLongest(zones, "*.", n, true, k);
      forall s | Longest(zones, "*.", n, true, s) && k < |cs| ensures "*." + s == cs[k] {
        LongestIsUnique(zones, "*.", n, true, s, SuffixOf(n, k));
      }
    }
  }

  lemma IngressNameIs(name: string)
    ensures IngressName(name) == SanitizeZoneName(name)
  {
    hide TrimLeft, TrimRight, IsSpace, Bare;
    TrimBothIs(TrimSpace(name), IsDot);
    BareLower(Trimmed(name));
    BareEnd(SanitizeZoneName(name));
  }

  lemma BareEnd(s: string)
    requires Bare(s, IsDot)
    ensures TrimDot(s) == s
  {
  }

  /** The engines look for a zone under the name it was written under exactly when trimming the
      dots of that name does not lay a space bare; it then wins over every wildcard. */
  lemma WrittenZoneIsFound<Z>(zones: Zones<Z>, name: string)
    requires IngressName(name) != ""
    ensures SanitizeZoneName(IngressName(name)) == SanitizeZoneName(name) <==> Bare(Trimmed(name), IsSpace)
    ensures Bare(Trimmed(name), IsSpace) && Stored(zones, name) ==>
              FirstStored(zones, IngressCandidates(name)) == Open(zones, name)
  {
    hide IngressCandidates, FirstStored, SanitizeZoneName, Bare;
    IngressNameIs(name);
    SanitizeTwice(name);
    IngressChoiceIsMostSpecific(zones, name);
  }

  /** The DNS server looks for a zone under the name it was written under exactly when the name has no
      space before its last dot; it then wins over every shorter suffix. */
  lemma WrittenZoneIsOpened<Z>(zones: Zones<Z>, name: string)
    requires DnsName(name) != ""
    ensures SanitizeZoneName(DnsName(name)) == SanitizeZoneName(name) <==> !SpaceBeforeDot(TrimSpace(name))
    ensures !SpaceBeforeDot(TrimSpace(name)) && Stored(zones, name) ==>
              FirstStored(zones, DnsCandidates(name)) == Open(zones, name)
  {
    hide DnsCandidates, FirstStored, SanitizeZoneName, NormalizeName, SpaceBeforeDot, TrimSpace;
    SanitizeNormalized(name);
    DnsChoiceIsMostSpecific(zones, name);
    var n := DnsName(name);
    if Stored(zones, n) {
      assert "" + n == n;
      SuffixesAreShorter(n);
      assert Longest(zones, "", n, false, n);
    }
  }

  lemma SuffixesAreShorter(n: string)
    ensures Eligible(n, n, false) && forall t :: Eligible(t, n, false) ==> |t| <= |n|
  {
  }

  /** A name that is nothing but spaces and dots has no zone. */
  lemma NoNameNoZone<Z>(zones: Zones<Z>, name: string)
    ensures DnsName(name) == "" ==> FirstStored(zones, DnsCandidates(name)) == NotExist
    ensures IngressName(name) == "" ==> FirstStored(zones, IngressCandidates(name)) == NotExist
  {
  }
}
