/** The segmented write-ahead log on disk, proved against the flat log of `WalLog`. */
module FileWals {
  import opened Events
  import opened WalLog
  import opened Segments
  import opened ChangeStores

  datatype WalError = WriteFailed

  /** A segment read into memory, and whether it has to be written back. */
  datatype SegmentState = SegmentState(log: Segment, dirty: bool)

  /** Where the backward search stopped: the q-th segment file in number order, and an item in it. */
  datatype Place = Place(q: nat, item: nat)

  ghost predicate WalOk(dir: Dir) {
    DirOk(dir) && Sound(Flat(dir))
  }

  function MarkedSegment(seg: Segment, j: nat): Segment
    requires j < |seg.items|
  {
    Segment(Mark(seg.items, j), seg.total, if seg.notOverlap > 0 then seg.notOverlap - 1 else 0)
  }

  function GrownSegment(seg: Segment, item: Item): Segment {
    Segment(seg.items + [item], |seg.items| + 1, seg.notOverlap + 1)
  }

  const NEW_SEGMENT := Segment([], 0, 0)

  ghost predicate InDir(dir: Dir, place: Place) {
    var ks := SegNos(dir.Keys);
    place.q < |ks| && place.item < |ItemsAt(dir, ks[place.q])|
  }

  function MarkedDir(dir: Dir, place: Place): Dir
    requires InDir(dir, place)
  {
    var n := SegNos(dir.Keys)[place.q];
    dir[n := MarkedSegment(dir[n], place.item)]
  }

  function GrownDir(dir: Dir, target: nat, item: Item): Dir {
    dir[target := GrownSegment(if target in dir then dir[target] else NEW_SEGMENT, item)]
  }

  /** The position of a place in the flat log. */
  ghost function FlatPosition(dir: Dir, place: Place): nat
    requires InDir(dir, place)
  {
    |Concat(dir, SegNos(dir.Keys)[..place.q])| + place.item
  }

  /** The backward search of the segments stopped where the backward search of the flat log does. */
  ghost predicate FoundAt(dir: Dir, key: Key, at: Option<Place>) {
    match at
    case None => FindOnTop(Flat(dir), key) == -1
    case Some(place) => InDir(dir, place) && FindOnTop(Flat(dir), key) == FlatPosition(dir, place)
  }

  lemma {:induction false} FindOnTopConcat(a: seq<Item>, b: seq<Item>, key: Key)
    ensures FindOnTop(a + b, key) ==
            if FindOnTop(b, key) >= 0 then |a| + FindOnTop(b, key) else FindOnTop(a, key)
  {
    if b == [] {
      assert a + b == a;
    } else {
      assert (a + b)[..|a + b| - 1] == a + b[..|b| - 1];
      if !Matches(b[|b| - 1], key) {
        FindOnTopConcat(a, b[..|b| - 1], key);
      }
    }
  }

  lemma DirOkUpdate(dir: Dir, n: nat, seg: Segment)
    requires DirOk(dir) && SegmentOk(n, seg)
    ensures DirOk(dir[n := seg])
  {
  }

  /** The guard on the counter never blocks the decrement. */
  lemma MarkedSegmentOk(n: nat, seg: Segment, j: nat)
    requires SegmentOk(n, seg) && j < |seg.items| && seg.items[j].status == OnTop
    ensures SegmentOk(n, MarkedSegment(seg, j)) && MarkedSegment(seg, j).notOverlap == seg.notOverlap - 1
  {
    OnTopCountMark(seg.items, j);
  }

  /** Marking an on-top item keeps the segment's counters right. */
  lemma MarkedDirOk(dir: Dir, place: Place)
    requires DirOk(dir) && InDir(dir, place)
    requires dir[SegNos(dir.Keys)[place.q]].items[place.item].status == OnTop
    ensures DirOk(MarkedDir(dir, place))
  {
    var n := SegNos(dir.Keys)[place.q];
    MarkedSegmentOk(n, dir[n], place.item);
    DirOkUpdate(dir, n, MarkedSegment(dir[n], place.item));
  }

  /** Marking a place marks the flat log at its position. */
  lemma MarkedDirIsMark(dir: Dir, place: Place)
    requires InDir(dir, place)
    ensures FlatPosition(dir, place) < |Flat(dir)|
    ensures Flat(dir)[FlatPosition(dir, place)] == dir[SegNos(dir.Keys)[place.q]].items[place.item]
    ensures Flat(MarkedDir(dir, place)) == Mark(Flat(dir), FlatPosition(dir, place))
    ensures MarkedDir(dir, place).Keys == dir.Keys
  {
    hide SegNos;
    hide Concat;
    var ks := SegNos(dir.Keys);
    MarkedFlat(dir, ks, place.q, place.item);
    FlatOfSameKeys(dir, ks[place.q], MarkedSegment(dir[ks[place.q]], place.item));
  }

  lemma FlatOfSameKeys(dir: Dir, n: nat, seg: Segment)
    requires n in dir
    ensures Flat(dir[n := seg]) == Concat(dir[n := seg], SegNos(dir.Keys))
    ensures dir[n := seg].Keys == dir.Keys
  {
    SameKeys(dir, n, seg);
  }

  lemma SameKeys(dir: Dir, n: nat, seg: Segment)
    requires n in dir
    ensures dir[n := seg].Keys == dir.Keys
  {
  }

  lemma MarkedFlat(dir: Dir, ks: seq<nat>, q: nat, j: nat)
    requires Ascending(ks) && q < |ks| && ks[q] in dir && j < |dir[ks[q]].items|
    ensures var p := |Concat(dir, ks[..q])| + j;
            && p < |Concat(dir, ks)|
            && Concat(dir, ks)[p] == dir[ks[q]].items[j]
            && Concat(dir[ks[q] := MarkedSegment(dir[ks[q]], j)], ks) == Mark(Concat(dir, ks), p)
  {
    ConcatUpdate(dir, ks, q, MarkedSegment(dir[ks[q]], j));
    MarkInMiddle(Concat(dir, ks[..q]), dir[ks[q]].items, Concat(dir, ks[q + 1..]), j);
  }

  lemma MarkInMiddle(a: seq<Item>, b: seq<Item>, c: seq<Item>, j: nat)
    requires j < |b|
    ensures Mark(a + b + c, |a| + j) == a + Mark(b, j) + c
  {
  }

  lemma ConcatStep(dir: Dir, ks: seq<nat>, i: nat)
    requires i < |ks|
    ensures Concat(dir, ks[..i + 1]) == Concat(dir, ks[..i]) + ItemsAt(dir, ks[i])
  {
    assert ks[..i + 1][..i] == ks[..i];
  }

  lemma FindOnTopStep(before: seq<Item>, items: seq<Item>, j: nat, key: Key)
    requires j < |items|
    ensures FindOnTop(before + items[..j + 1], key) ==
            if Matches(items[j], key) then |before| + j else FindOnTop(before + items[..j], key)
  {
    assert (before + items[..j + 1])[..|before| + j] == before + items[..j];
  }

  lemma FindOnTopEmpty(dir: Dir, ks: seq<nat>, key: Key)
    ensures FindOnTop(Concat(dir, ks[..0]), key) == -1
  {
  }

  /** Growing the segment of a new greatest index appends to the flat log. */
  lemma GrownDirIsAppend(dir: Dir, item: Item)
    requires DirOk(dir) && item.index > Latest(Flat(dir)) && item.status == OnTop
    ensures DirOk(GrownDir(dir, SegmentNumber(item.index), item))
    ensures Flat(GrownDir(dir, SegmentNumber(item.index), item)) == Flat(dir) + [item]
  {
    var target := SegmentNumber(item.index);
    if target in dir {
      GrowTop(dir, item);
    } else {
      BelowTarget(dir, item.index);
      NewTop(dir, target, item);
    }
  }

  lemma TargetIsTop(dir: Dir, index: nat)
    requires DirOk(dir) && dir.Keys != {} && index > Latest(Flat(dir))
    ensures forall k :: k in dir ==> k <= SegmentNumber(index)
    ensures SegmentNumber(index) in dir ==> Top(dir) == SegmentNumber(index)
    ensures SegmentNumber(index) in dir ==> Latest(Flat(dir)) == Latest(dir[SegmentNumber(index)].items)
  {
    hide Flat, DirOk;
    LatestInTop(dir);
    SegmentNumberReflects(index, Latest(Flat(dir)));
  }

  lemma BelowTarget(dir: Dir, index: nat)
    requires DirOk(dir) && index > Latest(Flat(dir)) && SegmentNumber(index) !in dir
    ensures forall k :: k in dir ==> k < SegmentNumber(index)
  {
    hide Flat, DirOk, SegmentNumber;
    if dir.Keys != {} {
      TargetIsTop(dir, index);
    }
  }

  lemma GrowTop(dir: Dir, item: Item)
    requires DirOk(dir) && item.index > Latest(Flat(dir)) && item.status == OnTop && SegmentNumber(item.index) in dir
    ensures DirOk(GrownDir(dir, SegmentNumber(item.index), item))
    ensures Flat(GrownDir(dir, SegmentNumber(item.index), item)) == Flat(dir) + [item]
  {
    var target := SegmentNumber(item.index);
    TargetIsTop(dir, item.index);
    GrownSegmentOk(target, dir[target], item);
    DirOkUpdate(dir, target, GrownSegment(dir[target], item));
    GrowTopFlat(dir, GrownSegment(dir[target], item), item);
  }

  lemma GrowTopFlat(dir: Dir, seg: Segment, item: Item)
    requires dir.Keys != {} && seg.items == dir[Top(dir)].items + [item]
    ensures Flat(dir[Top(dir) := seg]) == Flat(dir) + [item]
  {
    hide SegNos, Concat;
    var ks := SegNos(dir.Keys);
    SegNosTop(dir.Keys);
    SameKeys(dir, Top(dir), seg);
    ConcatUpdate(dir, ks, |ks| - 1, seg);
    assert ks[|ks|..] == [];
    ConcatNone(dir);
  }

  lemma GrownSegmentOk(n: nat, seg: Segment, item: Item)
    requires SegmentOk(n, seg) && item.index > Latest(seg.items) && item.status == OnTop
              && SegmentNumber(item.index) == n
    ensures SegmentOk(n, GrownSegment(seg, item))
  {
    OnTopCountConcat(seg.items, [item]);
    assert OnTopCount([item]) == OnTopCount([]) + 1;
  }

  lemma NewTop(dir: Dir, target: nat, item: Item)
    requires DirOk(dir) && item.index > 0 && item.status == OnTop
    requires target == SegmentNumber(item.index) && forall k :: k in dir ==> k < target
    ensures DirOk(GrownDir(dir, target, item))
    ensures Flat(GrownDir(dir, target, item)) == Flat(dir) + [item]
  {
    hide SegNos, Concat, OnTopCount;
    NewSegmentOk(target, item);
    DirOkUpdate(dir, target, GrownSegment(NEW_SEGMENT, item));
    NewTopFlat(dir, target, GrownSegment(NEW_SEGMENT, item));
  }

  lemma NewSegmentOk(n: nat, item: Item)
    requires item.index > 0 && item.status == OnTop && n == SegmentNumber(item.index)
    ensures SegmentOk(n, GrownSegment(NEW_SEGMENT, item))
  {
    assert OnTopCount([item]) == OnTopCount([]) + 1;
  }

  lemma NewTopFlat(dir: Dir, target: nat, seg: Segment)
    requires forall k :: k in dir ==> k < target
    ensures Flat(dir[target := seg]) == Flat(dir) + seg.items
  {
    hide SegNos, Concat;
    var ks, grown := SegNos(dir.Keys), dir[target := seg];
    assert grown.Keys == dir.Keys + {target};
    SegNosAddTop(dir.Keys, target);
    assert target !in ks;
    ConcatFrame(dir, grown, ks);
    ConcatSplit(grown, ks, [target]);
    ConcatOne(grown, target);
  }

  // ---------------------------------------------------------------------------------------------
  // One append, as the directories it passes through

  function MarkedFrom(dir: Dir, at: Option<Place>): Dir
    requires at.Some? ==> InDir(dir, at.value)
  {
    if at.None? then dir else MarkedDir(dir, at.value)
  }

  /** The on-top item of the key is marked. */
  lemma MarkStage(dir: Dir, key: Key, at: Option<Place>)
    requires WalOk(dir) && FoundAt(dir, key, at)
    ensures WalOk(MarkedFrom(dir, at)) && MarkedFrom(dir, at).Keys == dir.Keys
    ensures Flat(MarkedFrom(dir, at)) == Mark(Flat(dir), FindOnTop(Flat(dir), key))
    ensures Latest(Flat(MarkedFrom(dir, at))) == Latest(Flat(dir))
    ensures at.Some? ==> Flat(dir)[FindOnTop(Flat(dir), key)] == dir[SegNos(dir.Keys)[at.value.q]].items[at.value.item]
  {
    hide SegNos, Flat, Sound, DirOk, Concat;
    MarkKeepsSound(Flat(dir), FindOnTop(Flat(dir), key));
    if at.Some? {
      MarkedDirIsMark(dir, at.value);
      MarkedDirOk(dir, at.value);
    }
  }

  /** The new on-top item is added, which completes the append. */
  lemma GrowStage(dir: Dir, key: Key, at: Option<Place>, item: Item)
    requires WalOk(dir) && FoundAt(dir, key, at) && item.index > Latest(Flat(dir))
    requires item == Item(item.index, key,
                          if at.None? then 0 else dir[SegNos(dir.Keys)[at.value.q]].items[at.value.item].index, OnTop)
    ensures var grown := GrownDir(MarkedFrom(dir, at), SegmentNumber(item.index), item);
            WalOk(grown) && Flat(grown) == Appended(Flat(dir), item.index, key)
  {
    MarkStage(dir, key, at);
    hide SegNos, Flat, Sound, DirOk, Concat, InDir, GrownDir;
    GrownDirIsAppend(MarkedFrom(dir, at), item);
    AppendedKeepsSound(Flat(dir), item.index, key);
  }

  /** Whether an append can be written: the files of the overlapped item and of the new one. */
  ghost predicate Writable(log: seq<Item>, key: Key, index: nat, broken: set<nat>) {
    && SegmentNumber(index) !in broken
    && (FindOnTop(log, key) >= 0 ==> SegmentNumber(log[FindOnTop(log, key)].index) !in broken)
  }

  /** The log a failed append leaves: the overlapped item's file comes first, so that item is marked
      exactly when its own file can be written. */
  ghost function LeftBy(log: seq<Item>, key: Key, broken: set<nat>): seq<Item> {
    var p := FindOnTop(log, key);
    if p >= 0 && SegmentNumber(log[p].index) !in broken then Mark(log, p) else log
  }

  lemma LeftByKeepsLatest(log: seq<Item>, key: Key, broken: set<nat>)
    requires Sound(log)
    ensures Latest(LeftBy(log, key, broken)) == Latest(log)
  {
    MarkKeepsSound(log, FindOnTop(log, key));
  }

  /** A found item lies in the segment its index names. */
  lemma FoundInItsSegment(dir: Dir, key: Key, place: Place)
    requires WalOk(dir) && FoundAt(dir, key, Some(place))
    ensures FindOnTop(Flat(dir), key) >= 0
    ensures SegmentNumber(Flat(dir)[FindOnTop(Flat(dir), key)].index) == SegNos(dir.Keys)[place.q]
  {
    hide Flat, Sound, Concat;
    MarkStage(dir, key, Some(place));
    var n := SegNos(dir.Keys)[place.q];
    assert SegmentOk(n, dir[n]);
  }

  ghost predicate DirtyOnly(states: map<nat, SegmentState>, overlapped: Option<nat>, target: nat) {
    && target in states
    && (overlapped.Some? ==> overlapped.value in states)
    && forall n :: n in states ==> n <= target && (states[n].dirty <==> n == target || overlapped == Some(n))
  }

  /** The two segments an append leaves dirty turn the directory into the marked and the grown one. */
  lemma StatesFit(dir: Dir, at: Option<Place>, item: Item, states: map<nat, SegmentState>, overlapped: Option<nat>,
                  target: nat)
    requires WalOk(dir) && item.index > Latest(Flat(dir)) && target == SegmentNumber(item.index)
    requires at.Some? ==> InDir(dir, at.value)
    requires overlapped == if at.None? then None else Some(SegNos(dir.Keys)[at.value.q])
    requires var read := if at.None? then ReadStates(dir)
                         else ReadStates(dir)[
                           overlapped.value := SegmentState(MarkedDir(dir, at.value)[overlapped.value], true)];
             states == read[target := SegmentState(GrownDir(MarkedFrom(dir, at), target, item)[target], true)]
    ensures DirtyOnly(states, overlapped, target)
    ensures at.Some? && overlapped.value != target ==>
              dir[overlapped.value := states[overlapped.value].log] == MarkedFrom(dir, at)
    ensures (if at.Some? then dir[overlapped.value := states[overlapped.value].log][target := states[target].log]
             else dir[target := states[target].log]) == GrownDir(MarkedFrom(dir, at), target, item)
  {
    hide SegNos, Flat, Sound, DirOk, Concat, MarkedSegment, GrownSegment;
    if dir.Keys != {} {
      TargetIsTop(dir, item.index);
    }
  }

  lemma AppendFacts(log: seq<Item>, key: Key)
    requires Sound(log)
    ensures Exact(log) ==> Exact(Appended(log, Latest(log) + 1, key))
    ensures Dense(log) ==> Latest(log) == |log| && Dense(Appended(log, Latest(log) + 1, key))
    ensures Latest(Mark(log, FindOnTop(log, key))) == Latest(log)
  {
    hide *;
    MarkKeepsSound(log, FindOnTop(log, key));
    if Exact(log) {
      AppendedKeepsExact(log, Latest(log) + 1, key);
    }
    if Dense(log) {
      DenseLatest(log);
      CarriesOwnKeys(log);
      AppendedKeepsDense(log, seq(|log|, i requires 0 <= i < |log| => log[i].key), key);
    }
  }

  lemma CarriesOwnKeys(log: seq<Item>)
    ensures Carries(log, seq(|log|, i requires 0 <= i < |log| => log[i].key))
  {
  }

  lemma AppliedFacts(log: seq<Item>, index: nat, key: Key)
    requires Sound(log) && index > Latest(log)
    ensures Exact(log) ==> Exact(Appended(log, index, key))
    ensures Latest(Appended(log, index, key)) == index
    ensures Latest(Mark(log, FindOnTop(log, key))) == Latest(log)
  {
    hide *;
    MarkKeepsSound(log, FindOnTop(log, key));
    AppendedKeepsSound(log, index, key);
    if Exact(log) {
      AppendedKeepsExact(log, index, key);
    }
  }

  lemma SinceOfEmpty(dir: Dir, ks: seq<nat>, version: nat, canon: Canon, data: map<StorePath, Bytes>)
    ensures SinceOf(Concat(dir, ks[..0]), version, canon, data) == []
  {
  }

  lemma SinceOfStep(before: seq<Item>, items: seq<Item>, j: nat, version: nat, canon: Canon,
                    data: map<StorePath, Bytes>)
    requires j < |items|
    ensures SinceOf(before + items[..j + 1], version, canon, data)
            == SinceOf(before + items[..j], version, canon, data) + Entry(items[j], version, canon, data)
  {
    assert (before + items[..j + 1])[..|before| + j] == before + items[..j];
  }

  function ReadStates(dir: Dir): map<nat, SegmentState> {
    map n | n in dir :: SegmentState(dir[n], false)
  }

  /** In ascending numbers, those before the i-th are the smaller ones. */
  lemma NumbersBefore(ks: seq<nat>, i: nat)
    requires Ascending(ks) && i < |ks|
    ensures ks[i] in ks && forall n :: n in ks[..i] <==> n in ks && n < ks[i]
  {
    forall n | n in ks && n < ks[i] ensures n in ks[..i] {
      var j :| 0 <= j < |ks| && ks[j] == n;
      assert j < i;
      assert ks[..i][j] == n;
    }
  }

  class FileWAL {
    const store: ChangeStore
    var files: Dir

    constructor (store: ChangeStore)
      ensures this.store == store && files == map[] && Valid() && Log() == []
    {
      this.store := store;
      files := map[];
      new;
      EmptyDir(files);
    }

    ghost predicate Valid()
      reads this
    {
      WalOk(files)
    }

    /** The flat log the directory stands for. */
    ghost function Log(): seq<Item>
      reads this
    {
      Flat(files)
    }

    method LatestLocked() returns (latest: nat)
      requires Valid()
      ensures latest == Latest(Log())
    {
      var segmentNos := SegNos(files.Keys);
      if |segmentNos| == 0 {
        EmptyDir(files);
        return 0;
      }
      LatestInTop(files);
      return Latest(files[segmentNos[|segmentNos| - 1]].items);
    }

    /** The nested backward search over all segments for the key's on-top item. */
    method FindOverlap(key: Key) returns (at: Option<Place>)
      ensures FoundAt(files, key, at)
    {
      hide SegNos, Concat, FindOnTop;
      var segmentNos := SegNos(files.Keys);
      var i := |segmentNos|;
      assert segmentNos[..i] == segmentNos;
      while i > 0
        invariant 0 <= i <= |segmentNos|
        invariant FindOnTop(Concat(files, segmentNos), key) == FindOnTop(Concat(files, segmentNos[..i]), key)
      {
        i := i - 1;
        assert segmentNos[i] in segmentNos;
        var items := files[segmentNos[i]].items;
        ghost var before := Concat(files, segmentNos[..i]);
        ConcatStep(files, segmentNos, i);
        var j := |items|;
        assert items[..j] == items;
        while j > 0
          invariant 0 <= j <= |items|
          invariant FindOnTop(Concat(files, segmentNos), key) == FindOnTop(before + items[..j], key)
        {
          j := j - 1;
          FindOnTopStep(before, items, j, key);
          if Matches(items[j], key) {
            return Some(Place(i, j));
          }
        }
        assert before + items[..0] == before;
      }
      FindOnTopEmpty(files, segmentNos, key);
      return None;
    }

    /** Overlaps the key's on-top item, adds the new one, and writes the dirty segments in number
        order. The segments in `broken` cannot be written at this moment; a stop of the whole
        process at that point leaves the same files. */
    method AppendLocked(env: Envelope, nextIndex: nat, broken: set<nat>) returns (r: Result<Envelope, WalError>)
      requires Valid() && nextIndex > Latest(Log())
      modifies this`files
      ensures Valid()
      ensures r.Ok? <==> Writable(old(Log()), KeyOf(env), nextIndex, broken)
      ensures r.Ok? ==> r.value == env.(version := nextIndex)
      ensures r.Ok? ==> Log() == Appended(old(Log()), nextIndex, KeyOf(env))
      ensures r.Err? ==> Log() == LeftBy(old(Log()), KeyOf(env), broken)
    {
      hide SegNos, Flat, Sound, DirOk, Concat, FindOnTop, Appended, Latest, MarkedSegment;
      var key := KeyOf(env);
      var targetSegment := SegmentNumber(nextIndex);
      var states := ReadStates(files);

      var latestOverlapIndex := 0;
      var at := FindOverlap(key);
      MarkStage(files, key, at);
      var markedSegment := 0;
      if at.Some? {
        FoundInItsSegment(files, key, at.value);
        markedSegment := SegNos(files.Keys)[at.value.q];
        var seg := states[markedSegment].log;
        latestOverlapIndex := seg.items[at.value.item].index;
        states := states[markedSegment := SegmentState(MarkedSegment(seg, at.value.item), true)];
      }

      var target := if targetSegment in states then states[targetSegment].log else NEW_SEGMENT;
      var oldLen := |target.items|;
      var nextList := [];
      for i := 0 to oldLen
        invariant nextList == target.items[..i]
      {
        nextList := nextList + [target.items[i]];
      }
      assert target.items[..oldLen] == target.items;
      var item := Item(nextIndex, key, latestOverlapIndex, OnTop);
      nextList := nextList + [item];
      states := states[targetSegment := SegmentState(Segment(nextList, oldLen + 1, target.notOverlap + 1), true)];
      assert states[targetSegment].log == GrownSegment(target, item);
      GrowStage(files, key, at, item);

      ghost var marked := MarkedFrom(files, at);
      ghost var overlapped := if at.Some? then Some(markedSegment) else None;
      ghost var grown := GrownDir(marked, targetSegment, item);
      StatesFit(files, at, item, states, overlapped, targetSegment);
      var written := WriteSegments(states, broken, overlapped, targetSegment);
      if !written {
        return Err(WriteFailed);
      }
      return Ok(env.(version := nextIndex));
    }

    /** Writes the dirty segments in number order until one of them cannot be written. Dirty are
        the target segment, which is the highest, and the segment of the overlapped item. */
    method WriteSegments(states: map<nat, SegmentState>, broken: set<nat>, ghost overlapped: Option<nat>,
                         ghost target: nat)
      returns (written: bool)
      requires DirtyOnly(states, overlapped, target)
      modifies this`files
      ensures written <==> target !in broken && (overlapped.Some? ==> overlapped.value !in broken)
      ensures written ==>
                files == (if overlapped.Some? then old(files)[overlapped.value := states[overlapped.value].log]
                          else old(files))[target := states[target].log]
      ensures !written ==> files == if overlapped.Some? && overlapped.value !in broken
                                    then old(files)[overlapped.value := states[overlapped.value].log] else old(files)
    {
      hide SegNos;
      ghost var before := files;
      ghost var marked := if overlapped.Some? then before[overlapped.value := states[overlapped.value].log] else before;
      var segmentNos := SegNos(states.Keys);
      for i := 0 to |segmentNos|
        invariant files == (if target in segmentNos[..i] then marked[target := states[target].log]
                            else if overlapped.Some? && overlapped.value in segmentNos[..i] then marked
                            else before)
        invariant target in segmentNos[..i] ==> target !in broken
        invariant overlapped.Some? && overlapped.value in segmentNos[..i] ==> overlapped.value !in broken
      {
        var segNo := segmentNos[i];
        NumbersBefore(segmentNos, i);
        assert segNo in states && segNo <= target;
        assert segmentNos[..i + 1] == segmentNos[..i] + [segNo];
        if states[segNo].dirty {
          if segNo in broken {
            return false;
          }
          files := files[segNo := states[segNo].log];
        }
      }
      assert segmentNos[..|segmentNos|] == segmentNos;
      return true;
    }

    /** The master's append: the next index is the one after the latest. The index is 64-bit, so
        the log must not be at its end. */
    method Append(env: Envelope, broken: set<nat>) returns (r: Result<Envelope, WalError>)
      requires Valid() && Latest(Log()) < MAX_INDEX
      modifies this`files
      ensures Valid()
      ensures r.Ok? <==> Writable(old(Log()), KeyOf(env), Latest(old(Log())) + 1, broken)
      ensures r.Ok? ==> r.value == env.(version := Latest(old(Log())) + 1)
      ensures r.Ok? ==> Log() == Appended(old(Log()), Latest(old(Log())) + 1, KeyOf(env))
      ensures r.Ok? && old(Exact(Log())) ==> Exact(Log())
      ensures r.Ok? && old(Dense(Log())) ==> Dense(Log()) && r.value.version == |old(Log())| + 1
      ensures r.Err? ==> Log() == LeftBy(old(Log()), KeyOf(env), broken)
      ensures r.Err? ==> Latest(Log()) == Latest(old(Log()))
    {
      hide Flat, DirOk, Sound, FindOnTop, LeftBy, Writable, Exact, Dense, Appended, Latest;
      LeftByKeepsLatest(Flat(files), KeyOf(env), broken);
      var latestIndex := LatestLocked();
      AppendFacts(Flat(files), KeyOf(env));
      r := AppendLocked(env, latestIndex + 1, broken);
    }

    /** An agent's append of a change it applied: the index is the change's own version, and a
        version the log already covers changes nothing. */
    method AppendApplied(env: Envelope, broken: set<nat>) returns (r: Result<Envelope, WalError>)
      requires Valid()
      modifies this`files
      ensures Valid()
      ensures r.Ok? <==> env.version <= Latest(old(Log())) || Writable(old(Log()), KeyOf(env), env.version, broken)
      ensures r.Ok? ==> r.value == env
      ensures r.Ok? ==> Log() == if env.version <= Latest(old(Log())) then old(Log())
                                 else Appended(old(Log()), env.version, KeyOf(env))
      ensures r.Ok? ==> Latest(Log()) == if env.version <= Latest(old(Log())) then Latest(old(Log())) else env.version
      ensures r.Ok? && old(Exact(Log())) ==> Exact(Log())
      ensures r.Err? ==> Log() == LeftBy(old(Log()), KeyOf(env), broken)
      ensures r.Err? ==> Latest(Log()) == Latest(old(Log()))
    {
      hide Flat, DirOk, Sound, FindOnTop, LeftBy, Writable, Exact, Appended, Latest;
      LeftByKeepsLatest(Flat(files), KeyOf(env), broken);
      var latestIndex := LatestLocked();
      if env.version <= latestIndex {
        return Ok(env);
      }
      AppliedFacts(Flat(files), env.version, KeyOf(env));
      r := AppendLocked(env, env.version, broken);
    }

    /** The backlog of a follower at `version`, read segment by segment. */
    method Since(version: nat) returns (out: seq<Envelope>)
      ensures out == SinceOf(Log(), version, store.canon, store.data)
    {
      hide SegNos, Concat, SinceOf;
      var segmentNos := SegNos(files.Keys);
      out := [];
      SinceOfEmpty(files, segmentNos, version, store.canon, store.data);
      for i := 0 to |segmentNos|
        invariant out == SinceOf(Concat(files, segmentNos[..i]), version, store.canon, store.data)
      {
        assert segmentNos[i] in segmentNos;
        var items := files[segmentNos[i]].items;
        ghost var before := Concat(files, segmentNos[..i]);
        ConcatStep(files, segmentNos, i);
        assert before + items[..0] == before;
        for j := 0 to |items|
          invariant out == SinceOf(before + items[..j], version, store.canon, store.data)
        {
          SinceOfStep(before, items, j, version, store.canon, store.data);
          var item := items[j];
          if item.status == OnTop && item.index > version {
            var loaded := store.Load(FromLog(item.key.kind), item.key.host);
            if loaded.Ok? {
              out := out + [Recovered(item, loaded.value)];
            }
          }
        }
        assert items[..|items|] == items;
      }
      assert segmentNos[..|segmentNos|] == segmentNos;
    }
  }
}
