/** The log directory: numbered segment files of at most 1000 items, read as one flat log. */
module Segments {
  import opened WalLog

  const ITEMS_PER_FILE: nat := 1000

  datatype Segment = Segment(items: seq<Item>, total: nat, notOverlap: nat)

  /** The files wal.bin.N of one directory. */
  type Dir = map<nat, Segment>

  function SegmentNumber(index: nat): nat {
    if index == 0 then 1 else (index - 1) / ITEMS_PER_FILE + 1
  }

  ghost predicate Ascending(ks: seq<nat>) {
    forall i, j :: 0 <= i < j < |ks| ==> ks[i] < ks[j]
  }

  lemma MaxExists(s: set<nat>)
    requires s != {}
    ensures exists m :: m in s && forall n :: n in s ==> n <= m
  {
    var m :| m in s;
    if s != {m} {
      MaxExists(s - {m});
      var k :| k in s - {m} && forall n :: n in s - {m} ==> n <= k;
      var top := if k < m then m else k;
      assert forall n :: n in s ==> n in s - {m} || n == m;
      assert top in s && forall n :: n in s ==> n <= top;
    }
  }

  function MaxOf(s: set<nat>): (m: nat)
    requires s != {}
    ensures m in s && forall n :: n in s ==> n <= m
  {
    MaxExists(s);
    var m :| m in s && forall n :: n in s ==> n <= m;
    m
  }

  /** The segment numbers in ascending order. */
  function SegNos(s: set<nat>): (ks: seq<nat>)
    ensures Ascending(ks)
    ensures forall n :: n in ks <==> n in s
    decreases |s|
  {
    if s == {} then []
    else
      var m := MaxOf(s);
      SegNos(s - {m}) + [m]
  }

  lemma HasMember(ks: seq<nat>)
    requires ks != []
    ensures exists n :: n in ks
  {
    assert ks[0] in ks;
  }

  lemma {:induction false} AscendingUnique(a: seq<nat>, b: seq<nat>)
    requires Ascending(a) && Ascending(b)
    requires forall n :: n in a <==> n in b
    ensures a == b
  {
    if a == [] {
      if b != [] {
        HasMember(b);
      }
    } else {
      assert a[0] in b;
      var x, y := a[|a| - 1], b[|b| - 1];
      assert x in b && y in a;
      assert x == y;
      var a', b' := a[..|a| - 1], b[..|b| - 1];
      forall n ensures n in a' <==> n in b' {
        assert n in a' <==> n in a && n != x;
        assert n in b' <==> n in b && n != x;
      }
      AscendingUnique(a', b');
    }
  }

  function ItemsAt(dir: Dir, n: nat): seq<Item> {
    if n in dir then dir[n].items else []
  }

  function Concat(dir: Dir, ks: seq<nat>): seq<Item> {
    if ks == [] then [] else Concat(dir, ks[..|ks| - 1]) + ItemsAt(dir, ks[|ks| - 1])
  }

  /** The log a directory stands for: its segments in number order. */
  function Flat(dir: Dir): seq<Item> {
    Concat(dir, SegNos(dir.Keys))
  }

  ghost predicate SegmentOk(n: nat, seg: Segment) {
    && n > 0
    && seg.items != []
    && Increasing(seg.items)
    && (forall i :: 0 <= i < |seg.items| ==> seg.items[i].index > 0 && SegmentNumber(seg.items[i].index) == n)
    && seg.total == |seg.items|
    && seg.notOverlap == OnTopCount(seg.items)
  }

  ghost predicate DirOk(dir: Dir) {
    forall n :: n in dir ==> SegmentOk(n, dir[n])
  }

  // ---------------------------------------------------------------------------------------------
  // Concatenation

  lemma {:induction false} ConcatSplit(dir: Dir, a: seq<nat>, b: seq<nat>)
    ensures Concat(dir, a + b) == Concat(dir, a) + Concat(dir, b)
  {
    if b == [] {
      assert a + b == a;
    } else {
      assert (a + b)[..|a + b| - 1] == a + b[..|b| - 1];
      ConcatSplit(dir, a, b[..|b| - 1]);
    }
  }

  lemma {:induction false} ConcatFrame(dir: Dir, other: Dir, ks: seq<nat>)
    requires forall k :: k in ks ==> ItemsAt(dir, k) == ItemsAt(other, k)
    ensures Concat(dir, ks) == Concat(other, ks)
  {
    if ks != [] {
      ConcatFrame(dir, other, ks[..|ks| - 1]);
    }
  }

  /** Changing one segment changes exactly its stretch of the flat log. */
  lemma ConcatUpdate(dir: Dir, ks: seq<nat>, q: nat, seg: Segment)
    requires Ascending(ks) && q < |ks|
    ensures Concat(dir[ks[q] := seg], ks) == Concat(dir, ks[..q]) + seg.items + Concat(dir, ks[q + 1..])
    ensures Concat(dir, ks) == Concat(dir, ks[..q]) + ItemsAt(dir, ks[q]) + Concat(dir, ks[q + 1..])
  {
    hide SegNos, Concat;
    assert ks == ks[..q] + [ks[q]] + ks[q + 1..];
    var changed := dir[ks[q] := seg];
    ConcatSplit(dir, ks[..q] + [ks[q]], ks[q + 1..]);
    ConcatSplit(changed, ks[..q] + [ks[q]], ks[q + 1..]);
    ConcatSplit(dir, ks[..q], [ks[q]]);
    ConcatSplit(changed, ks[..q], [ks[q]]);
    ConcatFrame(dir, changed, ks[..q]);
    ConcatFrame(dir, changed, ks[q + 1..]);
    ConcatOne(dir, ks[q]);
    ConcatOne(changed, ks[q]);
  }

  lemma ConcatOne(dir: Dir, n: nat)
    ensures Concat(dir, [n]) == ItemsAt(dir, n)
  {
    assert Concat(dir, [n]) == Concat(dir, []) + ItemsAt(dir, n);
  }

  lemma ConcatNone(dir: Dir)
    ensures Concat(dir, []) == []
  {
  }

  lemma SegNosAddTop(s: set<nat>, n: nat)
    requires forall k :: k in s ==> k < n
    ensures SegNos(s + {n}) == SegNos(s) + [n]
  {
    AscendingUnique(SegNos(s + {n}), SegNos(s) + [n]);
  }

  // ---------------------------------------------------------------------------------------------
  // Segments and the flat log

  /** No segment exceeds 1000 items. */
  lemma SegmentBounded(n: nat, seg: Segment)
    requires SegmentOk(n, seg)
    ensures 1 <= |seg.items| <= 1000
  {
    var items := seg.items;
    IndexSpread(items, |items| - 1);
    assert SegmentNumber(items[0].index) == n && SegmentNumber(items[|items| - 1].index) == n;
  }

  lemma {:induction false} IndexSpread(items: seq<Item>, i: nat)
    requires Increasing(items) && i < |items|
    ensures items[i].index >= items[0].index + i
  {
    if i > 0 {
      IndexSpread(items, i - 1);
    }
  }

  lemma SegmentNumberReflects(a: nat, b: nat)
    ensures SegmentNumber(a) < SegmentNumber(b) ==> a < b
  {
  }

  lemma SegNosTop(s: set<nat>)
    requires s != {}
    ensures var ks := SegNos(s); ks != [] && ks[|ks| - 1] in s && forall n :: n in s ==> n <= ks[|ks| - 1]
  {
    var ks := SegNos(s);
    var some :| some in s;
    assert some in ks;
    assert ks[|ks| - 1] in ks;
    forall n | n in s ensures n <= ks[|ks| - 1] {
      assert n in ks;
    }
  }

  function Top(dir: Dir): (n: nat)
    requires dir.Keys != {}
    ensures n in dir && forall k :: k in dir ==> k <= n
  {
    SegNosTop(dir.Keys);
    var ks := SegNos(dir.Keys);
    ks[|ks| - 1]
  }

  /** The greatest index is the last item of the highest-numbered segment. */
  lemma LatestInTop(dir: Dir)
    requires DirOk(dir) && dir.Keys != {}
    ensures Flat(dir) != [] && Latest(Flat(dir)) == Latest(dir[Top(dir)].items) > 0
    ensures SegmentNumber(Latest(Flat(dir))) == Top(dir)
  {
    TopIsLast(dir);
    hide SegNos, Flat, Top, OnTopCount;
    assert SegmentOk(Top(dir), dir[Top(dir)]);
  }

  lemma TopIsLast(dir: Dir)
    requires dir.Keys != {}
    ensures var ks := SegNos(dir.Keys); ks != [] && Flat(dir) == Concat(dir, ks[..|ks| - 1]) + dir[Top(dir)].items
  {
    SegNosTop(dir.Keys);
    hide SegNos;
  }

  lemma EmptyDir(dir: Dir)
    requires dir.Keys == {}
    ensures Flat(dir) == []
  {
  }

  lemma {:induction false} ConcatOrigin(dir: Dir, ks: seq<nat>, i: nat)
    requires i < |Concat(dir, ks)|
    ensures exists q, j :: 0 <= q < |ks| && 0 <= j < |ItemsAt(dir, ks[q])|
              && Concat(dir, ks)[i] == ItemsAt(dir, ks[q])[j]
  {
    var front := ks[..|ks| - 1];
    var n := |Concat(dir, front)|;
    if i < n {
      ConcatOrigin(dir, front, i);
      var q, j :| 0 <= q < |front| && 0 <= j < |ItemsAt(dir, front[q])|
                && Concat(dir, front)[i] == ItemsAt(dir, front[q])[j];
      assert Concat(dir, ks)[i] == ItemsAt(dir, ks[q])[j];
    } else {
      assert Concat(dir, ks)[i] == ItemsAt(dir, ks[|ks| - 1])[i - n];
    }
  }

  /** Every item of the flat log is stored in segment (index - 1) / 1000 + 1. */
  lemma ItemInItsSegment(dir: Dir, i: nat)
    requires DirOk(dir) && i < |Flat(dir)|
    ensures SegmentNumber(Flat(dir)[i].index) in dir
    ensures Flat(dir)[i] in dir[SegmentNumber(Flat(dir)[i].index)].items
  {
    var ks := SegNos(dir.Keys);
    ConcatOrigin(dir, ks, i);
    var q, j :| 0 <= q < |ks| && 0 <= j < |ItemsAt(dir, ks[q])| && Concat(dir, ks)[i] == ItemsAt(dir, ks[q])[j];
    assert ks[q] in dir;
    assert SegmentOk(ks[q], dir[ks[q]]);
  }

  /** The per-segment counters add up to the on-top count of the flat log. */
  function NotOverlapSum(dir: Dir, ks: seq<nat>): nat
    requires forall k :: k in ks ==> k in dir
  {
    if ks == [] then 0 else NotOverlapSum(dir, ks[..|ks| - 1]) + dir[ks[|ks| - 1]].notOverlap
  }

  lemma {:induction false} NotOverlapSumCounts(dir: Dir, ks: seq<nat>)
    requires DirOk(dir) && forall k :: k in ks ==> k in dir
    ensures NotOverlapSum(dir, ks) == OnTopCount(Concat(dir, ks))
  {
    if ks != [] {
      NotOverlapSumCounts(dir, ks[..|ks| - 1]);
      assert SegmentOk(ks[|ks| - 1], dir[ks[|ks| - 1]]);
      OnTopCountConcat(Concat(dir, ks[..|ks| - 1]), dir[ks[|ks| - 1]].items);
    }
  }

  /** While every append ran to its end, the counters' sum is the number of distinct keys. */
  lemma NotOverlapSumIsDistinctKeys(dir: Dir)
    requires DirOk(dir) && Exact(Flat(dir))
    ensures NotOverlapSum(dir, SegNos(dir.Keys)) == |KeysOf(Flat(dir))|
  {
    NotOverlapSumCounts(dir, SegNos(dir.Keys));
    OnTopCountIsDistinctKeys(Flat(dir));
  }

  ghost predicate HasIndexIn(items: seq<Item>, index: nat) {
    exists j :: 0 <= j < |items| && items[j].index == index
  }

  /** With indexes 1, 2, 3, ... every segment below the highest is full. */
  lemma DenseSegmentsFull(dir: Dir, n: nat)
    requires DirOk(dir) && Dense(Flat(dir))
    requires dir.Keys != {} && 0 < n < Top(dir)
    ensures n in dir && |dir[n].items| == 1000
  {
    var base := (n - 1) * ITEMS_PER_FILE;
    LatestInTop(dir);
    forall i | base < i <= base + ITEMS_PER_FILE ensures n in dir && HasIndexIn(dir[n].items, i) {
      DenseHolds(dir, n, i);
    }
    DenseHolds(dir, n, base + ITEMS_PER_FILE);
    IndexesFit(dir[n].items, base, ITEMS_PER_FILE);
    SegmentBounded(n, dir[n]);
  }

  lemma DenseHolds(dir: Dir, n: nat, index: nat)
    requires DirOk(dir) && Dense(Flat(dir))
    requires dir.Keys != {} && 0 < n < Top(dir)
    requires (n - 1) * ITEMS_PER_FILE < index <= n * ITEMS_PER_FILE
    ensures n in dir && HasIndexIn(dir[n].items, index)
  {
    hide *;
    LatestInTop(dir);
    SegmentNumberRange(n, index);
    DenseLatest(Flat(dir));
    SegmentNumberReflects(index, |Flat(dir)|);
    DenseItem(Flat(dir), index);
    ItemInItsSegment(dir, index - 1);
    HasIndexAt(dir[n].items, Flat(dir)[index - 1]);
  }

  lemma HasIndexAt(items: seq<Item>, item: Item)
    requires item in items
    ensures HasIndexIn(items, item.index)
  {
  }

  lemma SegmentNumberRange(n: nat, index: nat)
    requires n > 0 && (n - 1) * ITEMS_PER_FILE < index <= n * ITEMS_PER_FILE
    ensures SegmentNumber(index) == n
  {
  }

  lemma DenseLatest(log: seq<Item>)
    requires Dense(log)
    ensures Latest(log) == |log|
  {
  }

  lemma DenseItem(log: seq<Item>, index: nat)
    requires Dense(log) && 0 < index <= |log|
    ensures log[index - 1].index == index
  {
  }

  /** An increasing list that holds `count` consecutive indexes has at least `count` items. */
  lemma {:induction false} IndexesFit(items: seq<Item>, base: nat, count: nat)
    requires Increasing(items)
    requires forall i :: base < i <= base + count ==> HasIndexIn(items, i)
    ensures |items| >= count
  {
    if count > 0 {
      assert HasIndexIn(items, base + count);
      var j :| 0 <= j < |items| && items[j].index == base + count;
      forall i | base < i <= base + count - 1 ensures HasIndexIn(items[..j], i) {
        assert HasIndexIn(items, i);
        var k :| 0 <= k < |items| && items[k].index == i;
        assert items[..j][k].index == i;
      }
      IndexesFit(items[..j], base, count - 1);
    }
  }
}
