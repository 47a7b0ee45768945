/** DNS zone files: records with one index list per type, and the lookups that go through them. */
module DnsZones {
  import opened Events
  import opened Names

  datatype RecordType = TypeA | TypeAAAA | TypeCNAME | TypeMX | TypeNS | TypePTR | TypeSOA | TypeTXT

  datatype Data =
    | Address4(address: nat)
    | Address6(high: nat, low: nat)
    | Host(host: string)
    | Exchange(preference: nat, exchange: string)
    | Authority(mname: string, rname: string, numbers: seq<nat>)
    | Text(values: seq<string>)

  datatype Record = Record(name: string, ttl: nat, kind: RecordType, data: Data)

  /** A zone message: the records, and eight lists of positions in them. */
  datatype Zone = Zone(records: seq<Record>, a: seq<nat>, aaaa: seq<nat>, cname: seq<nat>, mx: seq<nat>,
                       ns: seq<nat>, ptr: seq<nat>, soa: seq<nat>, txt: seq<nat>)

  /** A record builder: the record it writes, or nothing if its fields are refused. */
  datatype RecordBuilder = RecordBuilder(kind: RecordType, record: Option<Record>)

  /** A resource record as it goes out. */
  datatype RR = RR(name: string, qtype: nat, ttl: nat, data: Data)

  datatype LookupError = OutOfRange(offset: nat)

  const KINDS: seq<RecordType> := [TypeA, TypeAAAA, TypeCNAME, TypeMX, TypeNS, TypePTR, TypeSOA, TypeTXT]

  function QType(kind: RecordType): nat {
    match kind
    case TypeA => 1
    case TypeAAAA => 28
    case TypeCNAME => 5
    case TypeMX => 15
    case TypeNS => 2
    case TypePTR => 12
    case TypeSOA => 6
    case TypeTXT => 16
  }

  function ListOf(zone: Zone, kind: RecordType): seq<nat> {
    match kind
    case TypeA => zone.a
    case TypeAAAA => zone.aaaa
    case TypeCNAME => zone.cname
    case TypeMX => zone.mx
    case TypeNS => zone.ns
    case TypePTR => zone.ptr
    case TypeSOA => zone.soa
    case TypeTXT => zone.txt
  }

  function WithList(zone: Zone, kind: RecordType, list: seq<nat>): (r: Zone)
    ensures r.records == zone.records
    ensures forall k :: ListOf(r, k) == if k == kind then list else ListOf(zone, k)
  {
    match kind
    case TypeA => zone.(a := list)
    case TypeAAAA => zone.(aaaa := list)
    case TypeCNAME => zone.(cname := list)
    case TypeMX => zone.(mx := list)
    case TypeNS => zone.(ns := list)
    case TypePTR => zone.(ptr := list)
    case TypeSOA => zone.(soa := list)
    case TypeTXT => zone.(txt := list)
  }

  /** The lists under their query types. */
  function ByNumber(zone: Zone): map<nat, seq<nat>> {
    map[1 := zone.a, 28 := zone.aaaa, 5 := zone.cname, 15 := zone.mx,
        2 := zone.ns, 12 := zone.ptr, 6 := zone.soa, 16 := zone.txt]
  }

  lemma NumbersAre(qtype: nat)
    ensures (exists kind :: QType(kind) == qtype) <==> qtype in {1, 28, 5, 15, 2, 12, 6, 16}
  {
    assert QType(TypeA) == 1 && QType(TypeAAAA) == 28 && QType(TypeCNAME) == 5 && QType(TypeMX) == 15;
    assert QType(TypeNS) == 2 && QType(TypePTR) == 12 && QType(TypeSOA) == 6 && QType(TypeTXT) == 16;
  }

  lemma ByNumberHas(zone: Zone, kind: RecordType)
    ensures QType(kind) in ByNumber(zone) && ByNumber(zone)[QType(kind)] == ListOf(zone, kind)
  {
  }

  lemma ByNumberIs(zone: Zone, indexes: map<nat, seq<nat>>)
    ensures indexes == ByNumber(zone)
       <==> && (forall kind :: QType(kind) in indexes && indexes[QType(kind)] == ListOf(zone, kind))
            && (forall q :: q in indexes ==> exists kind :: QType(kind) == q)
  {
    hide QType, ListOf, ByNumber;
    forall kind ensures QType(kind) in ByNumber(zone) && ByNumber(zone)[QType(kind)] == ListOf(zone, kind) {
      ByNumberHas(zone, kind);
    }
    forall q ensures q in ByNumber(zone) <==> exists kind :: QType(kind) == q {
      NumbersAre(q);
      ByNumberKeys(zone, q);
    }
  }

  lemma ByNumberKeys(zone: Zone, qtype: nat)
    ensures qtype in ByNumber(zone) <==> qtype in {1, 28, 5, 15, 2, 12, 6, 16}
  {
  }

  // ---------------------------------------------------------------------------------------------
  // Writing a zone

  /** The positions of the builders of one type, in order. */
  function Positions(kinds: seq<RecordType>, kind: RecordType): seq<nat> {
    if kinds == [] then []
    else
      var n := |kinds| - 1;
      Positions(kinds[..n], kind) + if kinds[n] == kind then [n] else []
  }

  function KindsOf(builders: seq<RecordBuilder>): seq<RecordType> {
    seq(|builders|, i requires 0 <= i < |builders| => builders[i].kind)
  }

  function At(indexes: map<RecordType, seq<nat>>, kind: RecordType): seq<nat> {
    if kind in indexes then indexes[kind] else []
  }

  /** Copies the grown lists into the message, type by type. */
  method SetZoneIndexes(zone: Zone, indexes: map<RecordType, seq<nat>>) returns (r: Zone)
    ensures r.records == zone.records && forall kind :: ListOf(r, kind) == At(indexes, kind)
  {
    hide ListOf, At;
    r := zone;
    for k := 0 to |KINDS|
      invariant r.records == zone.records
      invariant forall j :: 0 <= j < k ==> ListOf(r, KINDS[j]) == At(indexes, KINDS[j])
    {
      var values := At(indexes, KINDS[k]);
      var list := [];
      for i := 0 to |values|
        invariant list == values[..i]
      {
        list := list + [values[i]];
      }
      r := WithList(r, KINDS[k], list);
    }
    forall kind ensures ListOf(r, kind) == At(indexes, kind) {
      var j := KindAt(kind);
    }
  }

  lemma KindAt(kind: RecordType) returns (j: nat)
    ensures j < |KINDS| && KINDS[j] == kind
  {
    j := match kind
      case TypeA => 0
      case TypeAAAA => 1
      case TypeCNAME => 2
      case TypeMX => 3
      case TypeNS => 4
      case TypePTR => 5
      case TypeSOA => 6
      case TypeTXT => 7;
  }

  lemma AtUpdated(indexes: map<RecordType, seq<nat>>, kind: RecordType, list: seq<nat>, k: RecordType)
    ensures At(indexes[kind := list], k) == if k == kind then list else At(indexes, k)
  {
  }

  lemma PositionsNone()
    ensures forall k :: At(map[], k) == Positions([], k)
  {
  }

  lemma PositionsNext(kinds: seq<RecordType>, kind: RecordType, i: nat)
    requires i < |kinds|
    ensures Positions(kinds[..i + 1], kind) == if kinds[i] == kind then Positions(kinds[..i], kind) + [i]
                                               else Positions(kinds[..i], kind)
  {
    assert kinds[..i + 1][..i] == kinds[..i];
  }

  /** Nothing is written if a builder refuses; otherwise each list holds its type's positions. */
  method WriteTo(builders: seq<RecordBuilder>) returns (r: Option<Zone>)
    ensures r.Some? <==> forall i :: 0 <= i < |builders| ==> builders[i].record.Some?
    ensures r.Some? ==> |r.value.records| == |builders|
    ensures r.Some? ==> forall i :: 0 <= i < |builders| ==> builders[i].record == Some(r.value.records[i])
    ensures r.Some? ==> forall kind :: ListOf(r.value, kind) == Positions(KindsOf(builders), kind)
  {
    hide ListOf, Positions, At;
    PositionsNone();
    var records := [];
    var indexes: map<RecordType, seq<nat>> := map[];
    for i := 0 to |builders|
      invariant |records| == i
      invariant forall j :: 0 <= j < i ==> builders[j].record == Some(records[j])
      invariant forall kind :: At(indexes, kind) == Positions(KindsOf(builders)[..i], kind)
    {
      var kind := builders[i].kind;
      if builders[i].record.None? {
        return None;
      }
      records := records + [builders[i].record.value];
      ghost var before := indexes;
      indexes := indexes[kind := At(indexes, kind) + [i]];
      forall k ensures At(indexes, k) == Positions(KindsOf(builders)[..i + 1], k) {
        AtUpdated(before, kind, At(before, kind) + [i], k);
        PositionsNext(KindsOf(builders), k, i);
      }
    }
    assert KindsOf(builders)[..|builders|] == KindsOf(builders);
    var zone := SetZoneIndexes(Zone(records, [], [], [], [], [], [], [], []), indexes);
    return Some(zone);
  }

  /** The positions of a type, ascending: every position is in the list of its own type, once, and
      in no other. */
  lemma {:induction false} PositionsPartition(kinds: seq<RecordType>, kind: RecordType)
    ensures forall p: nat :: p in Positions(kinds, kind) <==> p < |kinds| && kinds[p] == kind
    ensures forall i, j :: 0 <= i < j < |Positions(kinds, kind)| ==>
              Positions(kinds, kind)[i] < Positions(kinds, kind)[j]
  {
    if kinds != [] {
      var n := |kinds| - 1;
      PositionsPartition(kinds[..n], kind);
      assert forall i :: 0 <= i < |Positions(kinds[..n], kind)| ==>
                Positions(kinds[..n], kind)[i] in Positions(kinds[..n], kind);
    }
  }

  // ---------------------------------------------------------------------------------------------
  // Matching names

  predicate LabelsMatch(recordName: string, queryName: string) {
    || recordName == queryName
    || (|recordName| >= 2 && recordName[..2] == "*." &&
        var recordLabels, queryLabels := Split(TrimDot(recordName)), Split(TrimDot(queryName));
        |recordLabels| == |queryLabels| && |recordLabels| >= 2 && recordLabels[1..] == queryLabels[1..])
  }

  method RecordMatchesName(recordName: string, queryName: string) returns (ok: bool)
    ensures ok == LabelsMatch(recordName, queryName)
  {
    if recordName == queryName {
      return true;
    }
    if !(|recordName| >= 2 && recordName[..2] == "*.") {
      return false;
    }
    var recordLabels := Split(TrimDot(recordName));
    var queryLabels := Split(TrimDot(queryName));
    if |recordLabels| != |queryLabels| || |recordLabels| < 2 {
      return false;
    }
    for i := 1 to |recordLabels|
      invariant forall j :: 1 <= j < i ==> recordLabels[j] == queryLabels[j]
    {
      if recordLabels[i] != queryLabels[i] {
        assert recordLabels[1..][i - 1] != queryLabels[1..][i - 1];
        return false;
      }
    }
    return true;
  }

  /** The name is `rest` under one more leading label. */
  predicate OneLabelUnder(name: string, rest: string) {
    |name| > |rest| && name[|name| - |rest|..] == rest
    && name[|name| - |rest| - 1] == '.' && DotFree(name[..|name| - |rest| - 1])
  }

  /** Of two normalised names, the first matches the second exactly when they are equal, or the first
      is a wildcard and the two differ only in one leading label. */
  lemma WildcardIff(recordName: string, queryName: string)
    requires recordName != "" && recordName[|recordName| - 1] == '.'
    requires queryName != "" && queryName[|queryName| - 1] == '.'
    ensures LabelsMatch(recordName, queryName)
       <==> || recordName == queryName
            || (|recordName| > 2 && recordName[..2] == "*." && OneLabelUnder(queryName, recordName[2..]))
  {
    hide Split, OneLabelUnder, LabelsMatch, TrimDot;
    var q := queryName[..|queryName| - 1];
    if recordName == queryName {
      EqualMatch(recordName);
    } else if |recordName| > 2 && recordName[..2] == "*." {
      var rest := recordName[2..|recordName| - 1];
      assert recordName == "*" + "." + rest + "." && queryName == q + "." && recordName[2..] == rest + ".";
      WildcardLabels(recordName, queryName, rest, q);
    } else {
      NoWildcard(recordName, queryName);
    }
  }

  lemma EqualMatch(name: string)
    ensures LabelsMatch(name, name)
  {
  }

  lemma WildcardLabels(recordName: string, queryName: string, rest: string, q: string)
    requires recordName != queryName
    requires recordName == "*" + "." + rest + "." && queryName == q + "."
    ensures LabelsMatch(recordName, queryName) <==> OneLabelUnder(queryName, rest + ".")
  {
    hide Split, OneLabelUnder, TrimDot;
    Undotted("*" + "." + rest);
    Undotted(q);
    SplitFirst("*", rest);
    TailIff(q, rest);
    UnderTrimmed(q, rest);
  }

  lemma NoWildcard(recordName: string, queryName: string)
    requires recordName != queryName
    requires |recordName| <= 2 || recordName[..2] != "*."
    ensures !LabelsMatch(recordName, queryName)
  {
    hide Split;
    if |recordName| == 2 && recordName[..2] == "*." {
      assert recordName == "*" + ".";
      Undotted("*");
      SplitDotFree("*");
    }
  }

  lemma Undotted(s: string)
    ensures TrimDot(s + ".") == s
  {
  }

  lemma TailIff(q: string, rest: string)
    ensures |Split(q)| > 1 && Split(q)[1..] == Split(rest) <==> OneLabelUnder(q, rest)
  {
    hide Split, DotFree;
    if |Split(q)| > 1 && Split(q)[1..] == Split(rest) {
      SuffixStep(q, 1);
      JoinSplit(rest);
      var first := Split(q)[0];
      assert q == first + "." + rest;
      assert q[..|first|] == first && q[|q| - |rest|..] == rest;
    }
    if OneLabelUnder(q, rest) {
      var first := q[..|q| - |rest| - 1];
      assert q == first + "." + rest;
      SplitFirst(first, rest);
    }
  }

  lemma UnderTrimmed(q: string, rest: string)
    ensures OneLabelUnder(q + ".", rest + ".") <==> OneLabelUnder(q, rest)
  {
    var a, b := q + ".", rest + ".";
    if |q| > |rest| {
      assert a[|a| - |b|..] == q[|q| - |rest|..] + ".";
      assert a[..|a| - |b| - 1] == q[..|q| - |rest| - 1];
      assert (q[|q| - |rest|..] + ".")[..|rest|] == q[|q| - |rest|..];
      assert (rest + ".")[..|rest|] == rest;
    }
  }

  // ---------------------------------------------------------------------------------------------
  // Looking records up

  function Normalized(data: Data): Data {
    match data
    case Host(host) => Host(NormalizeName(host))
    case Exchange(preference, exchange) => Exchange(preference, NormalizeName(exchange))
    case Authority(mname, rname, numbers) => Authority(NormalizeName(mname), NormalizeName(rname), numbers)
    case _ => data
  }

  function ToRR(r: Record): RR {
    RR(NormalizeName(r.name), QType(r.kind), r.ttl, Normalized(r.data))
  }

  /** What a lookup through a list of positions answers. */
  function Through(records: seq<Record>, offsets: seq<nat>, want: string): Result<seq<RR>, LookupError> {
    if offsets == [] then Ok([])
    else
      var n := |offsets| - 1;
      match Through(records, offsets[..n], want)
      case Err(e) => Err(e)
      case Ok(answers) =>
        if offsets[n] >= |records| then Err(OutOfRange(offsets[n]))
        else if LabelsMatch(NormalizeName(records[offsets[n]].name), want)
        then Ok(answers + [ToRR(records[offsets[n]])])
        else Ok(answers)
  }

  /** A lookup fails exactly when a position is out of range, and names the first that is. */
  lemma {:induction false} ThroughFails(records: seq<Record>, offsets: seq<nat>, want: string)
    ensures Through(records, offsets, want).Ok? <==> forall i :: 0 <= i < |offsets| ==> offsets[i] < |records|
    ensures Through(records, offsets, want).Err? ==>
              exists i :: 0 <= i < |offsets| && offsets[i] >= |records|
                          && Through(records, offsets, want) == Err(OutOfRange(offsets[i]))
                          && forall j :: 0 <= j < i ==> offsets[j] < |records|
  {
    if offsets != [] {
      hide LabelsMatch, NormalizeName, ToRR;
      var n := |offsets| - 1;
      ThroughFails(records, offsets[..n], want);
      assert forall j :: 0 <= j < n ==> offsets[..n][j] == offsets[j];
    }
  }

  /** The plain scan: every record of the type that the name matches, in order. */
  function Scan(records: seq<Record>, want: string, qtype: nat): seq<RR> {
    if records == [] then []
    else
      var n := |records| - 1;
      Scan(records[..n], want, qtype) +
      if QType(records[n].kind) == qtype && LabelsMatch(NormalizeName(records[n].name), want)
      then [ToRR(records[n])] else []
  }

  /** A record is in the answer exactly when its type has the number asked for and its name matches. */
  lemma ScanOne(record: Record, want: string, qtype: nat)
    ensures var number := match record.kind
                          case TypeA => 1 case TypeAAAA => 28 case TypeCNAME => 5 case TypeMX => 15
                          case TypeNS => 2 case TypePTR => 12 case TypeSOA => 6 case TypeTXT => 16;
            var data := match record.data
                        case Host(host) => Host(NormalizeName(host))
                        case Exchange(preference, exchange) => Exchange(preference, NormalizeName(exchange))
                        case Authority(mname, rname, numbers) =>
                          Authority(NormalizeName(mname), NormalizeName(rname), numbers)
                        case Address4(address) => Address4(address)
                        case Address6(high, low) => Address6(high, low)
                        case Text(values) => Text(values);
            Scan([record], want, qtype) ==
            if qtype == number && LabelsMatch(NormalizeName(record.name), want)
            then [RR(NormalizeName(record.name), number, record.ttl, data)] else []
  {
    hide LabelsMatch, NormalizeName;
    assert [record][..0] == [];
  }

  /** The scan of two runs of records is that of the first, followed by that of the second. */
  lemma {:induction false} ScanConcat(a: seq<Record>, b: seq<Record>, want: string, qtype: nat)
    ensures Scan(a + b, want, qtype) == Scan(a, want, qtype) + Scan(b, want, qtype)
  {
    hide Scan;
    if b == [] {
      NothingToScan(want, qtype);
      assert a + b == a;
    } else {
      var n := |b| - 1;
      assert a + b == a + b[..n] + [b[n]] && b == b[..n] + [b[n]];
      ScanConcat(a, b[..n], want, qtype);
      ScanAppend(a + b[..n], b[n], want, qtype);
      ScanAppend(b[..n], b[n], want, qtype);
    }
  }

  lemma ScanAppend(records: seq<Record>, record: Record, want: string, qtype: nat)
    ensures Scan(records + [record], want, qtype)
         == Scan(records, want, qtype) +
            if QType(record.kind) == qtype && LabelsMatch(NormalizeName(record.name), want) then [ToRR(record)] else []
  {
    hide LabelsMatch, NormalizeName, ToRR, QType;
    assert (records + [record])[..|records|] == records;
  }

  class ReaderHandler {
    const zone: Zone
    const records: seq<Record>
    var indexes: map<nat, seq<nat>>

    constructor (zone: Zone)
      ensures this.zone == zone && records == zone.records && Loaded()
    {
      this.zone := zone;
      records := zone.records;
      indexes := map[];
      new;
      LoadIndexes();
    }

    /** Each list is under the query type that section 3.2.2 of RFC 1035, and section 2.1 of RFC 3596
        for AAAA, give its records; no other query type has a list. */
    predicate Loaded()
      reads this
    {
      indexes == ByNumber(zone)
    }

    /** Loads the eight lists under their query types. */
    method LoadIndexes()
      requires indexes == map[]
      modifies this
      ensures Loaded()
    {
      hide ListOf;
      for k := 0 to |KINDS|
        invariant forall j :: 0 <= j < k ==>
                  QType(KINDS[j]) in indexes && indexes[QType(KINDS[j])] == ListOf(zone, KINDS[j])
        invariant forall q :: q in indexes ==> exists kind :: QType(kind) == q
      {
        var list := ListOf(zone, KINDS[k]);
        var offsets := [];
        for i := 0 to |list|
          invariant offsets == list[..i]
        {
          offsets := offsets + [list[i]];
        }
        indexes := indexes[QType(KINDS[k]) := offsets];
      }
      forall kind ensures QType(kind) in indexes && indexes[QType(kind)] == ListOf(zone, kind) {
        var j := KindAt(kind);
      }
      ByNumberIs(zone, indexes);
    }

    function OffsetsOf(qtype: nat): seq<nat>
      reads this
    {
      if qtype in indexes then indexes[qtype] else []
    }

    method Lookup(name: string, qtype: nat) returns (r: Result<seq<RR>, LookupError>)
      ensures r == Through(records, OffsetsOf(qtype), NormalizeName(name))
    {
      hide LabelsMatch, NormalizeName;
      var offsets := OffsetsOf(qtype);
      if |offsets| == 0 {
        return Ok([]);
      }
      var want := NormalizeName(name);
      var answers := [];
      for i := 0 to |offsets|
        invariant Through(records, offsets[..i], want) == Ok(answers)
      {
        assert offsets[..i + 1][..i] == offsets[..i];
        if offsets[i] >= |records| {
          ThroughStops(records, offsets, want, i + 1);
          return Err(OutOfRange(offsets[i]));
        }
        var record := records[offsets[i]];
        var matches := RecordMatchesName(NormalizeName(record.name), want);
        if !matches {
          continue;
        }
        answers := answers + [ToRR(record)];
      }
      assert offsets[..|offsets|] == offsets;
      return Ok(answers);
    }
  }

  lemma {:induction false} ThroughStops(records: seq<Record>, offsets: seq<nat>, want: string, i: nat)
    requires i <= |offsets| && Through(records, offsets[..i], want).Err?
    ensures Through(records, offsets, want) == Through(records, offsets[..i], want)
    decreases |offsets|
  {
    hide LabelsMatch, NormalizeName;
    if i == |offsets| {
      assert offsets[..i] == offsets;
    } else {
      var init := offsets[..|offsets| - 1];
      assert init[..i] == offsets[..i];
      ThroughStops(records, init, want, i);
    }
  }

  // ---------------------------------------------------------------------------------------------
  // The indexes agree with a scan

  lemma {:induction false} ThroughPositionsIsScan(records: seq<Record>, kinds: seq<RecordType>, kind: RecordType,
                                                  want: string, n: nat)
    requires n <= |kinds| == |records| && forall i :: 0 <= i < |kinds| ==> records[i].kind == kinds[i]
    ensures Through(records, Positions(kinds[..n], kind), want) == Ok(Scan(records[..n], want, QType(kind)))
  {
    hide LabelsMatch, NormalizeName, QType, ToRR, Through, Scan, Positions;
    if n == 0 {
      NothingThrough(records, want);
      assert kinds[..0] == [] && records[..0] == [];
      NothingToScan(want, QType(kind));
      PositionsNone();
      assert Positions([], kind) == At(map[], kind);
    } else {
      ThroughPositionsIsScan(records, kinds, kind, want, n - 1);
      PositionsNext(kinds, kind, n - 1);
      ThroughNext(records, Positions(kinds[..n - 1], kind), want, n - 1);
      ScanNext(records, want, QType(kind), n - 1);
      QTypesDiffer(kinds[n - 1], kind);
    }
  }

  lemma NothingToScan(want: string, qtype: nat)
    ensures Scan([], want, qtype) == []
  {
  }

  lemma ThroughNext(records: seq<Record>, offsets: seq<nat>, want: string, p: nat)
    requires p < |records| && Through(records, offsets, want).Ok?
    ensures Through(records, offsets + [p], want)
         == Ok(if LabelsMatch(NormalizeName(records[p].name), want)
               then Through(records, offsets, want).value + [ToRR(records[p])]
               else Through(records, offsets, want).value)
  {
    hide LabelsMatch, NormalizeName, ToRR;
    assert (offsets + [p])[..|offsets|] == offsets;
  }

  lemma ScanNext(records: seq<Record>, want: string, qtype: nat, i: nat)
    requires i < |records|
    ensures Scan(records[..i + 1], want, qtype)
         == if QType(records[i].kind) == qtype && LabelsMatch(NormalizeName(records[i].name), want)
            then Scan(records[..i], want, qtype) + [ToRR(records[i])] else Scan(records[..i], want, qtype)
  {
    hide LabelsMatch, NormalizeName, ToRR, QType;
    assert records[..i + 1][..i] == records[..i];
  }

  lemma QTypesDiffer(a: RecordType, b: RecordType)
    ensures QType(a) == QType(b) <==> a == b
  {
  }

  lemma {:induction false} NothingOfThatType(records: seq<Record>, want: string, qtype: nat)
    requires forall kind :: QType(kind) != qtype
    ensures Scan(records, want, qtype) == []
  {
    if records != [] {
      NothingOfThatType(records[..|records| - 1], want, qtype);
    }
  }

  /** A zone as WriteTo leaves it. */
  predicate Indexed(zone: Zone) {
    forall kind :: ListOf(zone, kind) == Positions(RecordKinds(zone.records), kind)
  }

  function RecordKinds(records: seq<Record>): seq<RecordType> {
    seq(|records|, i requires 0 <= i < |records| => records[i].kind)
  }

  /** On every zone WriteTo wrote, a lookup of any name and query type answers what the plain scan of
      the records answers, in the same order, and never fails. */
  lemma LookupAgreesWithScan(zone: Zone, indexes: map<nat, seq<nat>>, name: string, qtype: nat)
    requires Indexed(zone)
    requires indexes == ByNumber(zone)
    ensures var offsets := if qtype in indexes then indexes[qtype] else [];
            Through(zone.records, offsets, NormalizeName(name)) == Ok(Scan(zone.records, NormalizeName(name), qtype))
  {
    hide LabelsMatch, NormalizeName, ListOf, Scan, Through, Positions;
    var want, kinds := NormalizeName(name), RecordKinds(zone.records);
    ByNumberIs(zone, indexes);
    assert zone.records[..|kinds|] == zone.records && kinds[..|kinds|] == kinds;
    if qtype in indexes {
      var kind :| QType(kind) == qtype;
      ThroughPositionsIsScan(zone.records, kinds, kind, want, |kinds|);
    } else {
      NothingThrough(zone.records, want);
      NothingOfThatType(zone.records, want, qtype);
    }
  }

  lemma NothingThrough(records: seq<Record>, want: string)
    ensures Through(records, [], want) == Ok([])
  {
  }

  /** Writing a zone and looking a name up in it: the answer is the plain scan of the records written. */
  method WriteThenLookup(builders: seq<RecordBuilder>, name: string, qtype: nat)
    returns (r: Option<Result<seq<RR>, LookupError>>, records: seq<Record>)
    requires forall i :: 0 <= i < |builders| && builders[i].record.Some? ==>
              builders[i].record.value.kind == builders[i].kind
    ensures r.Some? <==> forall i :: 0 <= i < |builders| ==> builders[i].record.Some?
    ensures r.Some? ==> |records| == |builders| && forall i :: 0 <= i < |builders| ==>
              builders[i].record == Some(records[i])
    ensures r.Some? ==> r.value == Ok(Scan(records, NormalizeName(name), qtype))
  {
    hide LabelsMatch, NormalizeName, ListOf, Scan, Through, Positions, QType, ByNumber;
    records := [];
    var written := WriteTo(builders);
    if written.None? {
      return None, records;
    }
    var zone := written.value;
    records := zone.records;
    assert RecordKinds(records) == KindsOf(builders);
    var handler := new ReaderHandler(zone);
    LookupAgreesWithScan(zone, handler.indexes, name, qtype);
    var answer := handler.Lookup(name, qtype);
    r := Some(answer);
  }
}
