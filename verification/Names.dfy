/** Domain names as strings: labels, normal forms, and the label suffixes zones are chosen by. */
module Names {
  import opened Texts

  // ---------------------------------------------------------------------------------------------
  // Labels

  function Split(s: string): (labels: seq<string>)
    ensures |labels| > 0
  {
    if s == "" then [""]
    else
      var rest := Split(s[1..]);
      if s[0] == '.' then [""] + rest else [[s[0]] + rest[0]] + rest[1..]
  }

  function Join(labels: seq<string>): string {
    if labels == [] then "" else if |labels| == 1 then labels[0] else labels[0] + "." + Join(labels[1..])
  }

  predicate DotFree(s: string) {
    forall i :: 0 <= i < |s| ==> s[i] != '.'
  }

  lemma {:induction false} SplitIsDotFree(s: string)
    ensures forall i :: 0 <= i < |Split(s)| ==> DotFree(Split(s)[i])
  {
    if s != "" {
      SplitIsDotFree(s[1..]);
      assert DotFree(Split(s[1..])[0]);
    }
  }

  /** Joining what was split gives the name back. */
  lemma {:induction false} JoinSplit(s: string)
    ensures Join(Split(s)) == s
  {
    if s != "" {
      JoinSplit(s[1..]);
      var rest := Split(s[1..]);
      if s[0] == '.' {
        assert Split(s) == [""] + rest && Split(s)[1..] == rest;
      } else {
        var all := [[s[0]] + rest[0]] + rest[1..];
        assert all[1..] == rest[1..];
        assert Join(all) == [s[0]] + Join(rest);
      }
      assert s == [s[0]] + s[1..];
    }
  }

  lemma {:induction false} SplitFirst(first: string, rest: string)
    requires DotFree(first)
    ensures Split(first + "." + rest) == [first] + Split(rest)
  {
    var s := first + "." + rest;
    if first == "" {
      assert s[1..] == rest;
    } else {
      assert s[1..] == first[1..] + "." + rest;
      SplitFirst(first[1..], rest);
      assert first == [first[0]] + first[1..];
    }
  }

  lemma {:induction false} SplitDotFree(first: string)
    requires DotFree(first)
    ensures Split(first) == [first]
  {
    if first != "" {
      SplitDotFree(first[1..]);
      assert first == [first[0]] + first[1..];
    }
  }

  /** Splitting what was joined gives the labels back. */
  lemma {:induction false} SplitJoin(labels: seq<string>)
    requires labels != [] && forall i :: 0 <= i < |labels| ==> DotFree(labels[i])
    ensures Split(Join(labels)) == labels
  {
    assert DotFree(labels[0]);
    if |labels| == 1 {
      SplitDotFree(labels[0]);
    } else {
      assert forall i :: 0 <= i < |labels| - 1 ==> labels[1..][i] == labels[i + 1];
      SplitJoin(labels[1..]);
      SplitFirst(labels[0], Join(labels[1..]));
    }
  }

  // ---------------------------------------------------------------------------------------------
  // Label suffixes

  /** s is what is left of n after dropping some of its leading labels, perhaps none. */
  predicate LabelSuffix(s: string, n: string) {
    s == n || (|s| < |n| && n[|n| - |s|..] == s && n[|n| - |s| - 1] == '.')
  }

  function SuffixOf(n: string, i: nat): string
    requires i < |Split(n)|
  {
    Join(Split(n)[i..])
  }

  lemma {:induction false} SuffixStep(n: string, i: nat)
    requires i < |Split(n)|
    ensures i == 0 ==> SuffixOf(n, i) == n
    ensures i > 0 ==> var first := Split(n)[0];
            var rest := Join(Split(n)[1..]);
            && DotFree(first) && n == first + "." + rest
            && Split(rest) == Split(n)[1..] && SuffixOf(n, i) == SuffixOf(rest, i - 1)
  {
    JoinSplit(n);
    SplitIsDotFree(n);
    assert Split(n)[0..] == Split(n);
    if i > 0 {
      var tail := Split(n)[1..];
      assert forall j :: 0 <= j < |tail| ==> tail[j] == Split(n)[j + 1];
      SplitJoin(tail);
      assert tail[i - 1..] == Split(n)[i..];
    }
  }

  lemma {:induction false} SuffixIsLabelSuffix(n: string, i: nat)
    requires i < |Split(n)|
    ensures LabelSuffix(SuffixOf(n, i), n)
    ensures i > 0 ==> |SuffixOf(n, i)| < |n|
    decreases i
  {
    SuffixStep(n, i);
    if i > 0 {
      var first, rest := Split(n)[0], Join(Split(n)[1..]);
      SuffixIsLabelSuffix(rest, i - 1);
      SuffixTransfers(SuffixOf(rest, i - 1), first, rest);
    }
  }

  lemma SuffixTransfers(s: string, first: string, rest: string)
    requires LabelSuffix(s, rest)
    ensures LabelSuffix(s, first + "." + rest) && |s| < |first + "." + rest|
  {
    var n := first + "." + rest;
    assert n[|n| - |rest|..] == rest && n[|n| - |rest| - 1] == '.';
    assert n[|n| - |s|..] == rest[|rest| - |s|..];
  }

  lemma {:induction false} LabelSuffixIsSuffix(s: string, n: string) returns (i: nat)
    requires LabelSuffix(s, n)
    ensures i < |Split(n)| && SuffixOf(n, i) == s
    ensures s != n ==> i > 0
    decreases |n|
  {
    if s == n {
      i := 0;
      SuffixStep(n, 0);
    } else {
      FirstLabel(n, |n| - |s| - 1);
      SuffixStep(n, 1);
      var first, rest := Split(n)[0], Join(Split(n)[1..]);
      assert |first| <= |n| - |s| - 1 by { LabelEnds(first, rest, |n| - |s| - 1); }
      assert LabelSuffix(s, rest) by { SuffixOfRest(s, first, rest); }
      var j := LabelSuffixIsSuffix(s, rest);
      i := j + 1;
      SuffixStep(n, i);
    }
  }

  lemma {:induction false} FirstLabel(n: string, dot: nat)
    requires dot < |n| && n[dot] == '.'
    ensures |Split(n)| > 1
  {
    if dot > 0 {
      FirstLabel(n[1..], dot - 1);
    }
  }

  lemma LabelEnds(first: string, rest: string, dot: nat)
    requires DotFree(first) && dot < |first + "." + rest| && (first + "." + rest)[dot] == '.'
    ensures |first| <= dot
  {
    assert forall k :: 0 <= k < |first| ==> (first + "." + rest)[k] == first[k];
  }

  lemma SuffixOfRest(s: string, first: string, rest: string)
    requires var n := first + "." + rest; LabelSuffix(s, n) && s != n && |first| <= |n| - |s| - 1
    ensures LabelSuffix(s, rest)
  {
    var n := first + "." + rest;
    assert n[|n| - |s|..] == rest[|rest| - |s|..];
    assert rest[0..] == rest;
    assert |s| < |rest| ==> n[|n| - |s| - 1] == rest[|rest| - |s| - 1];
  }

  /** Dropping more labels leaves a shorter suffix. */
  lemma {:induction false} SuffixesShrink(n: string, i: nat, j: nat)
    requires i < j < |Split(n)|
    ensures |SuffixOf(n, j)| < |SuffixOf(n, i)|
    decreases i
  {
    hide SuffixOf, Split, Join, LabelSuffix, DotFree;
    SuffixStep(n, i);
    SuffixStep(n, j);
    if i == 0 {
      SuffixIsLabelSuffix(n, j);
    } else {
      SuffixesShrink(Join(Split(n)[1..]), i - 1, j - 1);
    }
  }

  // ---------------------------------------------------------------------------------------------
  // Normal forms

  function Backslashes(s: string): nat {
    if s != "" && s[|s| - 1] == '\\' then 1 + Backslashes(s[..|s| - 1]) else 0
  }

  /** A name ends in a dot that is not escaped. */
  predicate IsFqdn(s: string) {
    s != "" && s[|s| - 1] == '.' && Backslashes(s[..|s| - 1]) % 2 == 0
  }

  function Fqdn(s: string): (r: string)
    ensures r != "" && r[|r| - 1] == '.'
  {
    if IsFqdn(s) then s else s + "."
  }

  function NormalizeName(name: string): (r: string)
    ensures r != "" && r[|r| - 1] == '.'
  {
    Fqdn(ToLower(TrimSpace(name)))
  }

  /** A normalised name has no capitals; a name in lower case without outer spaces that ends in a dot that is
      not escaped is normalised as it is. */
  lemma NormalizedIs(name: string)
    ensures forall i :: 0 <= i < |NormalizeName(name)| ==> !('A' <= NormalizeName(name)[i] <= 'Z')
    ensures TrimSpace(name) == ToLower(name) == name && name != "" && name[|name| - 1] == '.' ==>
              (NormalizeName(name) == name <==> Backslashes(name[..|name| - 1]) % 2 == 0)
  {
    hide TrimSpace, Backslashes;
  }

  function TrimDot(s: string): string {
    if s != "" && s[|s| - 1] == '.' then s[..|s| - 1] else s
  }

  function IsDot(c: char): bool {
    c == '.'
  }

  /** The name without outer spaces, then without outer dots. */
  function Trimmed(zone: string): string {
    TrimDots(TrimSpace(zone))
  }

  function SanitizeZoneName(zone: string): string {
    ToLower(Trimmed(zone))
  }

  // ---------------------------------------------------------------------------------------------
  // Sanitising twice

  predicate Bare(s: string, cut: char -> bool) {
    s != "" ==> !cut(s[0]) && !cut(s[|s| - 1])
  }

  lemma {:induction false} TrimLeftIs(s: string, cut: char -> bool)
    ensures var t := TrimLeft(s, cut);
            && (t != "" ==> !cut(t[0]) && t[|t| - 1] == s[|s| - 1])
            && |t| <= |s| && (|t| == |s| <==> t == s)
  {
    if s != "" && cut(s[0]) {
      TrimLeftIs(s[1..], cut);
    }
  }

  lemma {:induction false} TrimRightIs(s: string, cut: char -> bool)
    ensures var t := TrimRight(s, cut);
            && (t != "" ==> !cut(t[|t| - 1]) && t[0] == s[0])
            && |t| <= |s| && (|t| == |s| <==> t == s)
  {
    if s != "" && cut(s[|s| - 1]) {
      TrimRightIs(s[..|s| - 1], cut);
    }
  }

  /** Trimming both ends leaves a name bare of what was cut, and is the identity exactly on those. */
  lemma TrimBothIs(s: string, cut: char -> bool)
    ensures var t := TrimRight(TrimLeft(s, cut), cut);
            Bare(t, cut) && |t| <= |s| && (|t| == |s| <==> t == s) && (t == s <==> Bare(s, cut))
  {
    TrimLeftIs(s, cut);
    TrimRightIs(TrimLeft(s, cut), cut);
  }

  lemma BareLower(s: string)
    ensures Bare(ToLower(s), IsDot) <==> Bare(s, IsDot)
    ensures Bare(ToLower(s), IsSpace) <==> Bare(s, IsSpace)
  {
    LowerKeeps();
  }

  lemma LowerKeeps()
    ensures forall c: char :: IsDot(Lower(c)) == IsDot(c) && IsSpace(Lower(c)) == IsSpace(c)
  {
  }

  /** Sanitising a sanitised name changes it exactly when trimming the dots laid a space bare. */
  lemma SanitizeTwice(zone: string)
    ensures SanitizeZoneName(SanitizeZoneName(zone)) == SanitizeZoneName(zone) <==> Bare(Trimmed(zone), IsSpace)
  {
    hide TrimLeft, TrimRight, IsSpace, IsDot, Bare, ToLower;
    var s := SanitizeZoneName(zone);
    TrimBothIs(TrimSpace(zone), IsDot);
    BareLower(Trimmed(zone));
    TrimBothIs(s, IsSpace);
    TrimBothIs(TrimSpace(s), IsDot);
    LowerTwice(Trimmed(zone));
    LowerShape(Trimmed(s));
  }

  lemma LowerTwice(s: string)
    ensures ToLower(ToLower(s)) == ToLower(s)
  {
    LowerStays();
  }

  lemma LowerStays()
    ensures forall c: char :: Lower(Lower(c)) == Lower(c)
  {
  }

  lemma LowerShape(s: string)
    ensures |ToLower(s)| == |s|
  {
  }

  // ---------------------------------------------------------------------------------------------
  // Sanitising a normalised name

  function TrimDots(s: string): string {
    TrimRight(TrimLeft(s, IsDot), IsDot)
  }

  lemma {:induction false} LowerTrimLeft(s: string)
    ensures TrimLeft(ToLower(s), IsDot) == ToLower(TrimLeft(s, IsDot))
  {
    LowerKeeps();
    if s != "" && IsDot(s[0]) {
      assert ToLower(s)[1..] == ToLower(s[1..]);
      LowerTrimLeft(s[1..]);
    }
  }

  lemma {:induction false} LowerTrimRight(s: string)
    ensures TrimRight(ToLower(s), IsDot) == ToLower(TrimRight(s, IsDot))
  {
    LowerKeeps();
    if s != "" && IsDot(s[|s| - 1]) {
      assert ToLower(s)[..|s| - 1] == ToLower(s[..|s| - 1]);
      LowerTrimRight(s[..|s| - 1]);
    }
  }

  lemma LowerTrimDots(s: string)
    ensures TrimDots(ToLower(s)) == ToLower(TrimDots(s))
  {
    LowerTrimLeft(s);
    LowerTrimRight(TrimLeft(s, IsDot));
  }

  lemma {:induction false} TrimLeftDot(s: string)
    ensures TrimLeft(s + ".", IsDot) == if TrimLeft(s, IsDot) == "" then "" else TrimLeft(s, IsDot) + "."
  {
    if s != "" && IsDot(s[0]) {
      TrimLeftDot(s[1..]);
      assert (s + ".")[1..] == s[1..] + ".";
    }
  }

  /** One more trailing dot is trimmed away. */
  lemma TrailingDot(s: string)
    ensures TrimDots(s + ".") == TrimDots(s)
  {
    TrimLeftDot(s);
    var t := TrimLeft(s, IsDot);
    assert (t + ".")[..|t|] == t;
  }

  /** A longer name that does not end in a dot is longer after its leading dots are trimmed. */
  lemma {:induction false} TrimLeftShorter(s: string, n: string)
    requires |s| < |n| && n[..|s|] == s && !IsDot(n[|n| - 1])
    ensures |TrimLeft(s, IsDot)| < |TrimLeft(n, IsDot)|
  {
    if IsDot(n[0]) {
      if s == "" {
        TrimLeftShorter("", n[1..]);
      } else {
        assert n[1..][..|s| - 1] == s[1..];
        TrimLeftShorter(s[1..], n[1..]);
      }
    }
  }

  lemma {:induction false} TrimRightPrefix(s: string, cut: char -> bool)
    ensures |TrimRight(s, cut)| <= |s| && TrimRight(s, cut) == s[..|TrimRight(s, cut)|]
  {
    if s != "" && cut(s[|s| - 1]) {
      TrimRightPrefix(s[..|s| - 1], cut);
    }
  }

  lemma TrimDotsKeepsEnd(s: string)
    requires s != "" && !IsDot(s[|s| - 1])
    ensures TrimDots(s) == TrimLeft(s, IsDot)
  {
    TrimLeftIs(s, IsDot);
  }

  /** A name that ends in a space before its last dot. */
  predicate SpaceBeforeDot(s: string) {
    |s| >= 2 && s[|s| - 1] == '.' && IsSpace(s[|s| - 2])
  }

  lemma TrimSpaceAtEnd(n: string)
    requires n != "" && !IsSpace(n[0]) && IsSpace(n[|n| - 1])
    ensures |TrimDots(TrimSpace(n))| < |TrimDots(n)|
  {
    hide IsSpace;
    var m := TrimRight(n, IsSpace);
    assert TrimLeft(n, IsSpace) == n;
    TrimRightIs(n, IsSpace);
    TrimRightPrefix(n, IsSpace);
    assert !IsDot(n[|n| - 1]) by { SpaceIsNotDot(n[|n| - 1]); }
    TrimLeftShorter(m, n);
    TrimRightIs(TrimLeft(m, IsDot), IsDot);
    TrimDotsKeepsEnd(n);
  }

  lemma SpaceIsNotDot(c: char)
    ensures IsSpace(c) ==> !IsDot(c)
  {
  }

  /** A name normalised and without its last dot sanitises as the name itself does, exactly when the
      name has no space before its last dot. */
  lemma SanitizeNormalized(name: string)
    ensures SanitizeZoneName(TrimDot(NormalizeName(name))) == SanitizeZoneName(name)
       <==> !SpaceBeforeDot(TrimSpace(name))
  {
    hide TrimLeft, TrimRight, IsSpace, Bare, ToLower;
    var t := TrimSpace(name);
    var l := ToLower(t);
    TrimBothIs(name, IsSpace);
    BareLower(t);
    TrimBothIs(l, IsSpace);
    LowerTrimDots(t);
    assert SanitizeZoneName(name) == TrimDots(l);
    LowerTwice(t);
    SanitizeIs(l);
    if IsFqdn(l) {
      FqdnDropped(t, l);
    } else {
      NotFqdn(t, l);
      assert TrimDot(NormalizeName(name)) == l;
    }
  }

  lemma SanitizeIs(s: string)
    requires ToLower(s) == s
    ensures TrimSpace(s) == s ==> SanitizeZoneName(s) == TrimDots(s)
  {
    LowerTrimDots(s);
  }

  lemma FqdnDropped(t: string, l: string)
    requires l == ToLower(t) && IsFqdn(l) && Bare(l, IsSpace)
    ensures TrimDot(Fqdn(l)) == l[..|l| - 1]
    ensures SanitizeZoneName(l[..|l| - 1]) == TrimDots(l) <==> !SpaceBeforeDot(t)
  {
    hide TrimLeft, TrimRight, IsSpace;
    var n := l[..|l| - 1];
    LowerKeeps();
    LowerStays();
    assert l == n + ".";
    TrailingDot(n);
    LowerPart(t, n);
    SanitizeEmpty();
    if n != "" {
      assert n[0] == l[0];
      assert SpaceBeforeDot(t) <==> IsSpace(n[|n| - 1]);
      if IsSpace(n[|n| - 1]) {
        TrimSpaceAtEnd(n);
        LowerShape(TrimDots(TrimSpace(n)));
      } else {
        TrimBothIs(n, IsSpace);
        SanitizeIs(n);
      }
    }
  }

  lemma SanitizeEmpty()
    ensures SanitizeZoneName("") == "" && TrimDots("") == ""
  {
  }

  lemma LowerPart(t: string, n: string)
    requires |n| < |t| && n == ToLower(t)[..|n|]
    ensures ToLower(n) == n
  {
    LowerStays();
  }

  lemma NotFqdn(t: string, l: string)
    requires l == ToLower(t) && !IsFqdn(l)
    ensures TrimDot(Fqdn(l)) == l && !SpaceBeforeDot(t)
  {
    LowerKeeps();
  }
}
