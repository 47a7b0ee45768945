/** The write-ahead log as one flat sequence of items: what an append does to it, which items
    are on top, what the per-segment counters count, and the chain through lastAffectIndex. */
module WalLog {
  import opened Events

  datatype Status = Overlapped | OnTop

  datatype Item = Item(index: nat, key: Key, lastAffect: nat, status: Status)

  predicate Matches(item: Item, key: Key) {
    item.status == OnTop && item.key == key
  }

  /** The greatest position holding an on-top item of `key`, or -1. */
  function FindOnTop(log: seq<Item>, key: Key): (p: int)
    ensures -1 <= p < |log|
    ensures p >= 0 ==> Matches(log[p], key)
    ensures forall i :: p < i < |log| ==> !Matches(log[i], key)
  {
    if log == [] then -1
    else if Matches(log[|log| - 1], key) then |log| - 1
    else FindOnTop(log[..|log| - 1], key)
  }

  function Marked(item: Item): Item {
    item.(status := Overlapped)
  }

  function Mark(log: seq<Item>, p: int): seq<Item>
    requires p < |log|
  {
    if p < 0 then log else log[p := Marked(log[p])]
  }

  /** The flat effect of one append: the key's on-top item is overlapped, and a new on-top item
      pointing back at it is added. */
  function Appended(log: seq<Item>, index: nat, key: Key): seq<Item> {
    var p := FindOnTop(log, key);
    Mark(log, p) + [Item(index, key, if p < 0 then 0 else log[p].index, OnTop)]
  }

  function Latest(log: seq<Item>): nat {
    if log == [] then 0 else log[|log| - 1].index
  }

  function OnTopCount(log: seq<Item>): nat {
    if log == [] then 0
    else OnTopCount(log[..|log| - 1]) + (if log[|log| - 1].status == OnTop then 1 else 0)
  }

  ghost predicate Increasing(log: seq<Item>) {
    forall i, j :: 0 <= i < j < |log| ==> log[i].index < log[j].index
  }

  ghost predicate Positive(log: seq<Item>) {
    forall i :: 0 <= i < |log| ==> log[i].index > 0
  }

  /** No later item carries the same raw key. */
  ghost predicate LastOfKey(log: seq<Item>, i: nat)
    requires i < |log|
  {
    forall j :: i < j < |log| ==> log[j].key != log[i].key
  }

  /** What holds of a log even after a stop between two segment writes: an on-top item is the
      newest of its key, so a key has at most one. */
  ghost predicate Sound(log: seq<Item>) {
    && Increasing(log)
    && Positive(log)
    && forall i :: 0 <= i < |log| && log[i].status == OnTop ==> LastOfKey(log, i)
  }

  /** What holds while every append ran to its end: the newest item of every key is on top, and
      every item points at the previous item of its key. */
  ghost predicate Exact(log: seq<Item>) {
    && Sound(log)
    && (forall i :: 0 <= i < |log| && LastOfKey(log, i) ==> log[i].status == OnTop)
    && (forall i :: 0 <= i < |log| ==> log[i].lastAffect == NewestOf(log[..i], log[i].key))
  }

  /** The indexes of the key's items, newest first. */
  function IndexesOf(log: seq<Item>, key: Key): seq<nat> {
    if log == [] then []
    else (if log[|log| - 1].key == key then [log[|log| - 1].index] else []) + IndexesOf(log[..|log| - 1], key)
  }

  function NewestOf(log: seq<Item>, key: Key): nat {
    var indexes := IndexesOf(log, key);
    if indexes == [] then 0 else indexes[0]
  }

  /** The position of the item with that index, or -1. */
  function PositionOf(log: seq<Item>, index: nat): (p: int)
    ensures -1 <= p < |log|
    ensures p >= 0 ==> log[p].index == index
    ensures p < 0 ==> forall i :: 0 <= i < |log| ==> log[i].index != index
  {
    if log == [] then -1
    else if log[|log| - 1].index == index then |log| - 1
    else PositionOf(log[..|log| - 1], index)
  }

  /** The indexes met when following lastAffectIndex from `index` until 0. The walk gives up where
      a link does not lead strictly backwards; `ChainVisitsKey` shows that never happens. */
  function Follow(log: seq<Item>, index: nat): seq<nat>
    decreases index
  {
    var p := PositionOf(log, index);
    if index == 0 || p < 0 then []
    else if log[p].lastAffect < index then [index] + Follow(log, log[p].lastAffect)
    else [index]
  }

  function KeysOf(log: seq<Item>): set<Key> {
    set i | 0 <= i < |log| :: log[i].key
  }

  // ---------------------------------------------------------------------------------------------
  // Appends keep the log sound and exact

  lemma NewestIsLast(log: seq<Item>, key: Key)
    ensures IndexesOf(log, key) == [] ==> forall i :: 0 <= i < |log| ==> log[i].key != key
    ensures IndexesOf(log, key) != [] ==>
              exists i :: 0 <= i < |log| && log[i].key == key && LastOfKey(log, i) && log[i].index == NewestOf(log, key)
  {
    if log != [] {
      var front := log[..|log| - 1];
      NewestIsLast(front, key);
      if log[|log| - 1].key == key {
        assert LastOfKey(log, |log| - 1);
      } else if IndexesOf(front, key) != [] {
        var i :| 0 <= i < |front| && front[i].key == key && LastOfKey(front, i)
                  && front[i].index == NewestOf(front, key);
        assert LastOfKey(log, i);
      }
    }
  }

  lemma IndexesIgnoreStatus(log: seq<Item>, p: int, key: Key)
    requires p < |log|
    ensures IndexesOf(Mark(log, p), key) == IndexesOf(log, key)
  {
    if log != [] && p >= 0 {
      var front := log[..|log| - 1];
      if p == |log| - 1 {
        assert Mark(log, p)[..|log| - 1] == front;
      } else {
        assert Mark(log, p)[..|log| - 1] == Mark(front, p);
        IndexesIgnoreStatus(front, p, key);
      }
    }
  }

  lemma NewestIgnoresStatus(log: seq<Item>, p: int, key: Key)
    requires p < |log|
    ensures NewestOf(Mark(log, p), key) == NewestOf(log, key)
  {
    IndexesIgnoreStatus(log, p, key);
  }

  lemma MarkKeepsSound(log: seq<Item>, p: int)
    requires Sound(log) && p < |log|
    ensures Sound(Mark(log, p)) && Latest(Mark(log, p)) == Latest(log)
  {
    var marked := Mark(log, p);
    forall i | 0 <= i < |marked| && marked[i].status == OnTop
      ensures LastOfKey(marked, i)
    {
      assert LastOfKey(log, i);
    }
  }

  lemma AppendedKeepsSound(log: seq<Item>, index: nat, key: Key)
    requires Sound(log) && index > Latest(log)
    ensures Sound(Appended(log, index, key))
    ensures Latest(Appended(log, index, key)) == index
  {
    var p := FindOnTop(log, key);
    MarkKeepsSound(log, p);
    var marked, after := Mark(log, p), Appended(log, index, key);
    forall i | 0 <= i < |after| && after[i].status == OnTop
      ensures LastOfKey(after, i)
    {
      if i < |log| {
        assert LastOfKey(marked, i);
        assert i != p && log[i].status == OnTop && LastOfKey(log, i);
        assert i < p ==> log[p].key != log[i].key;
        assert after[i].key != key;
      }
    }
  }

  lemma AppendedKeepsExact(log: seq<Item>, index: nat, key: Key)
    requires Exact(log) && index > Latest(log)
    ensures Exact(Appended(log, index, key))
  {
    AppendedKeepsSound(log, index, key);
    AppendedNewestOnTop(log, index, key);
    AppendedChain(log, index, key);
    hide Sound, Appended, NewestOf;
  }

  lemma AppendedNewestOnTop(log: seq<Item>, index: nat, key: Key)
    requires Exact(log)
    ensures var after := Appended(log, index, key);
            forall i :: 0 <= i < |after| && LastOfKey(after, i) ==> after[i].status == OnTop
  {
    hide *;
    forall i | 0 <= i < |Appended(log, index, key)| && LastOfKey(Appended(log, index, key), i)
      ensures Appended(log, index, key)[i].status == OnTop
    {
      AppendedNewestOnTopAt(log, index, key, i);
    }
  }

  lemma AppendedNewestOnTopAt(log: seq<Item>, index: nat, key: Key, i: nat)
    requires Exact(log)
    requires i < |Appended(log, index, key)| && LastOfKey(Appended(log, index, key), i)
    ensures Appended(log, index, key)[i].status == OnTop
  {
    hide NewestOf, FindOnTop;
    var after := Appended(log, index, key);
    if i < |log| {
      assert after[|log|].key != after[i].key;
      forall j | i < j < |log| ensures log[j].key != log[i].key {
        assert after[j].key == log[j].key;
      }
      assert LastOfKey(log, i);
    }
  }

  lemma AppendedChain(log: seq<Item>, index: nat, key: Key)
    requires Exact(log)
    ensures var after := Appended(log, index, key);
            forall i :: 0 <= i < |after| ==> after[i].lastAffect == NewestOf(after[..i], after[i].key)
  {
    hide *;
    forall i | 0 <= i < |Appended(log, index, key)|
      ensures Appended(log, index, key)[i].lastAffect
              == NewestOf(Appended(log, index, key)[..i], Appended(log, index, key)[i].key)
    {
      AppendedChainAt(log, index, key, i);
    }
  }

  lemma AppendedChainAt(log: seq<Item>, index: nat, key: Key, i: nat)
    requires Exact(log) && i < |Appended(log, index, key)|
    ensures Appended(log, index, key)[i].lastAffect
            == NewestOf(Appended(log, index, key)[..i], Appended(log, index, key)[i].key)
  {
    hide NewestOf, IndexesOf, FindOnTop;
    var p := FindOnTop(log, key);
    var after := Appended(log, index, key);
    if i < |log| {
      var q := if p < i then p else -1;
      assert after[..i] == Mark(log[..i], q);
      NewestIgnoresStatus(log[..i], q, after[i].key);
    } else {
      assert after[..i] == Mark(log, p);
      NewestIgnoresStatus(log, p, key);
      OnTopIsNewest(log, key);
    }
  }

  /** In an exact log the backward search finds the newest item of the key, if there is any. */
  lemma OnTopIsNewest(log: seq<Item>, key: Key)
    requires Exact(log)
    ensures FindOnTop(log, key) >= 0 <==> key in KeysOf(log)
    ensures FindOnTop(log, key) >= 0 ==>
              LastOfKey(log, FindOnTop(log, key)) && log[FindOnTop(log, key)].index == NewestOf(log, key)
    ensures FindOnTop(log, key) < 0 ==> NewestOf(log, key) == 0
  {
    var p := FindOnTop(log, key);
    NewestIsLast(log, key);
    if IndexesOf(log, key) != [] {
      var i :| 0 <= i < |log| && log[i].key == key && LastOfKey(log, i) && log[i].index == NewestOf(log, key);
      assert Matches(log[i], key);
      assert p >= i;
    }
  }

  // ---------------------------------------------------------------------------------------------
  // The chain through lastAffectIndex

  /** Following lastAffectIndex from the key's newest item visits every item of that key, each
      once and newest first, and nothing else. */
  lemma ChainVisitsKey(log: seq<Item>, key: Key)
    requires Exact(log)
    ensures Follow(log, NewestOf(log, key)) == IndexesOf(log, key)
    ensures forall i, j :: 0 <= i < j < |IndexesOf(log, key)| ==> IndexesOf(log, key)[i] > IndexesOf(log, key)[j]
    ensures forall x :: x in IndexesOf(log, key) <==> HasIndex(log, key, x)
  {
    assert log[..|log|] == log;
    ChainFromPrefix(log, |log|, key);
    IndexesDescend(log, key);
    forall x ensures x in IndexesOf(log, key) <==> HasIndex(log, key, x) {
      IndexesComplete(log, key, x);
    }
  }

  ghost predicate HasIndex(log: seq<Item>, key: Key, index: nat) {
    exists i :: 0 <= i < |log| && log[i].key == key && log[i].index == index
  }

  lemma {:induction false} ChainFromPrefix(log: seq<Item>, n: nat, key: Key)
    requires Exact(log) && n <= |log|
    ensures Follow(log, NewestOf(log[..n], key)) == IndexesOf(log[..n], key)
  {
    if n > 0 {
      ChainFromPrefix(log, n - 1, key);
      assert log[..n][..n - 1] == log[..n - 1];
      if log[n - 1].key == key {
        FollowStep(log, n - 1);
      }
    }
  }

  /** lastAffectIndex leads strictly backwards. */
  lemma FollowStep(log: seq<Item>, p: nat)
    requires Exact(log) && p < |log|
    ensures log[p].lastAffect < log[p].index
    ensures Follow(log, log[p].index) == [log[p].index] + Follow(log, log[p].lastAffect)
  {
    assert log[p].lastAffect == NewestOf(log[..p], log[p].key);
    NewestBelow(log, p, log[p].key);
    PositionUnique(log, p);
    hide Exact, IndexesOf, NewestOf, PositionOf;
  }

  lemma NewestBelow(log: seq<Item>, p: nat, key: Key)
    requires Increasing(log) && Positive(log) && p < |log|
    ensures NewestOf(log[..p], key) < log[p].index
  {
    var before := log[..p];
    IndexesDescend(before, key);
    hide IndexesOf;
    assert IndexesOf(before, key) != [] ==> IndexesOf(before, key)[0] in IndexesOf(before, key);
  }

  lemma PositionUnique(log: seq<Item>, p: nat)
    requires Increasing(log) && p < |log|
    ensures PositionOf(log, log[p].index) == p
  {
    hide PositionOf;
  }

  lemma {:induction false} IndexesDescend(log: seq<Item>, key: Key)
    requires Increasing(log) && Positive(log)
    ensures forall i, j :: 0 <= i < j < |IndexesOf(log, key)| ==> IndexesOf(log, key)[i] > IndexesOf(log, key)[j]
    ensures forall x :: x in IndexesOf(log, key) ==> 0 < x <= Latest(log)
  {
    if log != [] {
      var front := log[..|log| - 1];
      IndexesDescend(front, key);
      assert front != [] ==> Latest(front) < Latest(log);
      forall j | 0 <= j < |IndexesOf(front, key)| ensures IndexesOf(front, key)[j] < Latest(log) {
        assert IndexesOf(front, key)[j] in IndexesOf(front, key);
      }
    }
  }

  lemma {:induction false} IndexesComplete(log: seq<Item>, key: Key, x: nat)
    ensures x in IndexesOf(log, key) <==> HasIndex(log, key, x)
  {
    if log != [] {
      IndexesComplete(log[..|log| - 1], key, x);
      HasIndexSplit(log, key, x);
    }
  }

  lemma HasIndexSplit(log: seq<Item>, key: Key, x: nat)
    requires log != []
    ensures var front, last := log[..|log| - 1], log[|log| - 1];
            HasIndex(log, key, x) <==> HasIndex(front, key, x) || (last.key == key && last.index == x)
  {
    var front := log[..|log| - 1];
    if HasIndex(front, key, x) {
      var i :| 0 <= i < |front| && front[i].key == key && front[i].index == x;
      assert log[i] == front[i];
    }
    if HasIndex(log, key, x) {
      var i :| 0 <= i < |log| && log[i].key == key && log[i].index == x;
      assert i < |front| ==> front[i] == log[i];
    }
  }

  // ---------------------------------------------------------------------------------------------
  // The on-top counter

  lemma {:induction false} OnTopCountConcat(a: seq<Item>, b: seq<Item>)
    ensures OnTopCount(a + b) == OnTopCount(a) + OnTopCount(b)
  {
    if b == [] {
      assert a + b == a;
    } else {
      assert (a + b)[..|a + b| - 1] == a + b[..|b| - 1];
      OnTopCountConcat(a, b[..|b| - 1]);
    }
  }

  lemma {:induction false} OnTopCountMark(log: seq<Item>, p: nat)
    requires p < |log| && log[p].status == OnTop
    ensures OnTopCount(Mark(log, p)) == OnTopCount(log) - 1
    ensures OnTopCount(log) > 0
  {
    var marked := Mark(log, p);
    if p < |log| - 1 {
      assert marked[..|log| - 1] == Mark(log[..|log| - 1], p);
      OnTopCountMark(log[..|log| - 1], p);
    } else {
      assert marked[..|log| - 1] == log[..|log| - 1];
    }
  }

  function OnTopKeys(log: seq<Item>): set<Key> {
    set i | 0 <= i < |log| && log[i].status == OnTop :: log[i].key
  }

  lemma {:induction false} OnTopCountIsKeyCount(log: seq<Item>)
    requires forall i :: 0 <= i < |log| && log[i].status == OnTop ==> LastOfKey(log, i)
    ensures OnTopCount(log) == |OnTopKeys(log)|
  {
    if log == [] {
      assert OnTopKeys(log) == {};
    } else {
      var front, last := log[..|log| - 1], log[|log| - 1];
      forall i | 0 <= i < |front| && front[i].status == OnTop ensures LastOfKey(front, i) && front[i].key != last.key {
        assert LastOfKey(log, i);
      }
      OnTopCountIsKeyCount(front);
      OnTopKeysSplit(log);
    }
  }

  lemma OnTopKeysSplit(log: seq<Item>)
    requires log != []
    ensures OnTopKeys(log) == OnTopKeys(log[..|log| - 1])
                              + if log[|log| - 1].status == OnTop then {log[|log| - 1].key} else {}
  {
    var front := log[..|log| - 1];
    forall key ensures key in OnTopKeys(front) ==> key in OnTopKeys(log) {
      if key in OnTopKeys(front) {
        var i :| 0 <= i < |front| && front[i].status == OnTop && front[i].key == key;
        assert log[i] == front[i];
      }
    }
  }

  /** The number of on-top items is the number of distinct keys ever appended. */
  lemma OnTopCountIsDistinctKeys(log: seq<Item>)
    requires Exact(log)
    ensures OnTopCount(log) == |KeysOf(log)|
  {
    OnTopCountIsKeyCount(log);
    forall key | key in KeysOf(log) ensures key in OnTopKeys(log) {
      OnTopIsNewest(log, key);
      assert log[FindOnTop(log, key)].key == key;
    }
    assert OnTopKeys(log) == KeysOf(log);
  }

  // ---------------------------------------------------------------------------------------------
  // Logs written by Append alone

  /** The log after appending these keys, each at the index after the latest. */
  function LogOf(keys: seq<Key>): seq<Item> {
    if keys == [] then [] else Appended(LogOf(keys[..|keys| - 1]), |keys|, keys[|keys| - 1])
  }

  /** Indexes count up from 1 without a gap. */
  ghost predicate Dense(log: seq<Item>) {
    forall i :: 0 <= i < |log| ==> log[i].index == i + 1
  }

  /** The log's items carry these keys, in this order. */
  ghost predicate Carries(log: seq<Item>, keys: seq<Key>) {
    |log| == |keys| && forall i :: 0 <= i < |keys| ==> log[i].key == keys[i]
  }

  lemma AppendedKeepsDense(log: seq<Item>, keys: seq<Key>, key: Key)
    requires Dense(log) && Carries(log, keys)
    ensures Latest(log) == |log|
    ensures Dense(Appended(log, |log| + 1, key)) && Carries(Appended(log, |log| + 1, key), keys + [key])
  {
    hide FindOnTop;
  }

  /** The n-th append gets index n, and the log stays exact. */
  lemma {:induction false} LogOfDense(keys: seq<Key>)
    ensures Exact(LogOf(keys)) && Dense(LogOf(keys)) && Carries(LogOf(keys), keys)
  {
    if keys == [] {
      assert LogOf(keys) == [];
    } else {
      hide *;
      var front, key := keys[..|keys| - 1], keys[|keys| - 1];
      LogOfDense(front);
      CarriesLength(LogOf(front), front);
      AppendedKeepsDense(LogOf(front), front, key);
      AppendedKeepsExact(LogOf(front), |keys|, key);
      LogOfStep(keys);
    }
  }

  lemma LogOfStep(keys: seq<Key>)
    requires keys != []
    ensures var front := keys[..|keys| - 1];
            && LogOf(keys) == Appended(LogOf(front), |keys|, keys[|keys| - 1])
            && front + [keys[|keys| - 1]] == keys
  {
  }

  lemma CarriesLength(log: seq<Item>, keys: seq<Key>)
    requires Carries(log, keys)
    ensures |log| == |keys|
  {
  }

  // ---------------------------------------------------------------------------------------------
  // What a follower at some version is missing

  function Recovered(item: Item, bin: Bytes): Envelope {
    Envelope(FromLog(item.key.kind), item.key.host, bin, item.index, Recover)
  }

  /** What one item adds to a backlog: nothing, unless it is on top, past `version` and its bytes are
      in the store. */
  function Entry(item: Item, version: nat, canon: Canon, data: map<StorePath, Bytes>): seq<Envelope> {
    if item.status == OnTop && item.index > version && canon(item.key) in data
    then [Recovered(item, data[canon(item.key)])] else []
  }

  /** The on-top items past `version`, oldest first, each with the bytes the store holds now; an
      item whose bytes are not in the store is passed over. */
  function SinceOf(log: seq<Item>, version: nat, canon: Canon, data: map<StorePath, Bytes>): seq<Envelope> {
    if log == [] then []
    else SinceOf(log[..|log| - 1], version, canon, data) + Entry(log[|log| - 1], version, canon, data)
  }

  lemma {:induction false} SinceOfConcat(a: seq<Item>, b: seq<Item>, version: nat, canon: Canon,
                                         data: map<StorePath, Bytes>)
    ensures SinceOf(a + b, version, canon, data) == SinceOf(a, version, canon, data) + SinceOf(b, version, canon, data)
  {
    if b == [] {
      assert a + b == a;
    } else {
      assert (a + b)[..|a + b| - 1] == a + b[..|b| - 1];
      SinceOfConcat(a, b[..|b| - 1], version, canon, data);
    }
  }

  predicate FromItem(item: Item, env: Envelope, canon: Canon, data: map<StorePath, Bytes>) {
    && item.status == OnTop
    && canon(item.key) in data
    && env == Recovered(item, data[canon(item.key)])
  }

  ghost predicate FromLogItem(log: seq<Item>, env: Envelope, canon: Canon, data: map<StorePath, Bytes>) {
    exists i :: 0 <= i < |log| && FromItem(log[i], env, canon, data)
  }

  ghost predicate RecoveredFrom(log: seq<Item>, version: nat, canon: Canon, data: map<StorePath, Bytes>,
                                out: seq<Envelope>) {
    && (forall m :: 0 <= m < |out| ==> version < out[m].version <= Latest(log))
    && (forall m, n :: 0 <= m < n < |out| ==> out[m].version < out[n].version)
    && (forall m :: 0 <= m < |out| ==> FromLogItem(log, out[m], canon, data))
  }

  /** What is recovered comes from on-top items past the version, in ascending order. */
  lemma {:induction false} SinceOfShape(log: seq<Item>, version: nat, canon: Canon, data: map<StorePath, Bytes>)
    requires Increasing(log)
    ensures RecoveredFrom(log, version, canon, data, SinceOf(log, version, canon, data))
  {
    hide FromLogItem, FromItem, Entry;
    if log != [] {
      var front, last := log[..|log| - 1], log[|log| - 1];
      SinceOfShape(front, version, canon, data);
      EntryFrom(last, version, canon, data);
      RecoveredMore(log, version, canon, data, SinceOf(front, version, canon, data), Entry(last, version, canon, data));
    }
  }

  lemma EntryFrom(item: Item, version: nat, canon: Canon, data: map<StorePath, Bytes>)
    ensures var entry := Entry(item, version, canon, data);
            && |entry| <= 1
            && (entry != [] ==> entry[0].version == item.index > version && FromItem(item, entry[0], canon, data))
  {
  }

  lemma RecoveredMore(log: seq<Item>, version: nat, canon: Canon, data: map<StorePath, Bytes>, rest: seq<Envelope>,
                      entry: seq<Envelope>)
    requires log != [] && Increasing(log) && RecoveredFrom(log[..|log| - 1], version, canon, data, rest)
    requires |entry| <= 1
    requires entry != [] ==> entry[0].version == log[|log| - 1].index > version
                             && FromItem(log[|log| - 1], entry[0], canon, data)
    ensures RecoveredFrom(log, version, canon, data, rest + entry)
  {
    hide FromItem, FromLogItem;
    var front, out := log[..|log| - 1], rest + entry;
    assert front != [] ==> Latest(front) < Latest(log);
    forall m | 0 <= m < |out| ensures FromLogItem(log, out[m], canon, data) {
      if m < |rest| {
        FromLonger(log, rest[m], canon, data);
      } else {
        FromLast(log, entry[0], canon, data);
      }
    }
  }

  lemma FromLonger(log: seq<Item>, env: Envelope, canon: Canon, data: map<StorePath, Bytes>)
    requires log != [] && FromLogItem(log[..|log| - 1], env, canon, data)
    ensures FromLogItem(log, env, canon, data)
  {
    hide FromItem;
    var front := log[..|log| - 1];
    var i :| 0 <= i < |front| && FromItem(front[i], env, canon, data);
    assert log[i] == front[i];
  }

  lemma FromLast(log: seq<Item>, env: Envelope, canon: Canon, data: map<StorePath, Bytes>)
    requires log != [] && FromItem(log[|log| - 1], env, canon, data)
    ensures FromLogItem(log, env, canon, data)
  {
    hide FromItem;
  }

  lemma {:induction false} SinceOfComplete(log: seq<Item>, version: nat, canon: Canon, data: map<StorePath, Bytes>,
                                           i: nat)
    requires i < |log| && log[i].status == OnTop && log[i].index > version && canon(log[i].key) in data
    ensures Recovered(log[i], data[canon(log[i].key)]) in SinceOf(log, version, canon, data)
  {
    if i < |log| - 1 {
      SinceOfComplete(log[..|log| - 1], version, canon, data, i);
    }
  }
}
