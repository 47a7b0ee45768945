/** The string helpers the repository leans on. Letters outside ASCII keep their case here. */
module Texts {

  function IsSpace(c: char): bool {
    var n := c as int;
    || 9 <= n <= 13 || n == 32 || n == 0x85 || n == 0xA0 || n == 0x1680 || 0x2000 <= n <= 0x200A
    || n == 0x2028 || n == 0x2029 || n == 0x202F || n == 0x205F || n == 0x3000
  }

  function TrimLeft(s: string, cut: char -> bool): string {
    if s != "" && cut(s[0]) then TrimLeft(s[1..], cut) else s
  }

  function TrimRight(s: string, cut: char -> bool): string {
    if s != "" && cut(s[|s| - 1]) then TrimRight(s[..|s| - 1], cut) else s
  }

  function TrimSpace(s: string): string {
    TrimRight(TrimLeft(s, IsSpace), IsSpace)
  }

  function Lower(c: char): char {
    if 'A' <= c <= 'Z' then c - 'A' + 'a' else c
  }

  function ToLower(s: string): string {
    seq(|s|, i requires 0 <= i < |s| => Lower(s[i]))
  }

  // ---------------------------------------------------------------------------------------------
  // What they mean

  /** The characters of Unicode's White_Space property. */
  const SPACES := "\t\n\U{000B}\U{000C}\r \U{0085}\U{00A0}\U{1680}" +
                  "\U{2000}\U{2001}\U{2002}\U{2003}\U{2004}\U{2005}\U{2006}\U{2007}\U{2008}\U{2009}\U{200A}" +
                  "\U{2028}\U{2029}\U{202F}\U{205F}\U{3000}"

  lemma SpaceIs(c: char)
    ensures IsSpace(c) <==> c in SPACES
  {
    if IsSpace(c) {
      var n := c as int;
      var i := if n <= 13 then n - 9 else if n == 32 then 5 else if n == 0x85 then 6 else if n == 0xA0 then 7
               else if n == 0x1680 then 8 else if n <= 0x200A then 9 + n - 0x2000
               else if n <= 0x2029 then 20 + n - 0x2028 else if n == 0x202F then 22 else if n == 0x205F then 23 else 24;
      assert SPACES[i] == c;
    }
  }

  const UPPER := "ABCDEFGHIJKLMNOPQRSTUVWXYZ"

  lemma UpperIsLowered(i: nat)
    requires i < 26
    ensures Lower(UPPER[i]) == "abcdefghijklmnopqrstuvwxyz"[i]
  {
  }

  lemma OthersStay(c: char)
    ensures Lower(c) == c || c in UPPER
  {
    if Lower(c) != c {
      assert UPPER[c as int - 'A' as int] == c;
    }
  }

  ghost predicate All(s: string, cut: char -> bool) {
    forall i :: 0 <= i < |s| ==> cut(s[i])
  }

  lemma {:induction false} TrimmedLeft(s: string, cut: char -> bool) returns (a: string)
    ensures s == a + TrimLeft(s, cut) && All(a, cut)
    ensures TrimLeft(s, cut) != "" ==> !cut(TrimLeft(s, cut)[0])
  {
    a := "";
    if s != "" && cut(s[0]) {
      a := TrimmedLeft(s[1..], cut);
      a := [s[0]] + a;
    }
  }

  lemma {:induction false} TrimmedRight(s: string, cut: char -> bool) returns (b: string)
    ensures s == TrimRight(s, cut) + b && All(b, cut)
    ensures TrimRight(s, cut) != "" ==> !cut(TrimRight(s, cut)[|TrimRight(s, cut)| - 1])
  {
    b := "";
    if s != "" && cut(s[|s| - 1]) {
      b := TrimmedRight(s[..|s| - 1], cut);
      b := b + [s[|s| - 1]];
    }
  }

  /** Trimming takes spaces off both ends, all of them, and nothing else. */
  lemma SpaceTrimmed(s: string) returns (a: string, b: string)
    ensures s == a + TrimSpace(s) + b && All(a, IsSpace) && All(b, IsSpace)
    ensures TrimSpace(s) != "" ==> !IsSpace(TrimSpace(s)[0]) && !IsSpace(TrimSpace(s)[|TrimSpace(s)| - 1])
  {
    hide IsSpace;
    a := TrimmedLeft(s, IsSpace);
    b := TrimmedRight(TrimLeft(s, IsSpace), IsSpace);
  }
}
