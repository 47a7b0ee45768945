/** The master's coordinator: it publishes, and fans changes out to the channels of its subscribers. */
module Coordinators {
  import opened Events
  import opened WalLog
  import opened FileWals
  import opened WalManagers

  datatype CoordinatorError = NoBin | NoHostname | NotPublished(reason: PublishError)

  datatype SubscribeError = AheadOfMaster(agent: nat, master: nat)

  /** What one call of Publish is given. Writes to the segments in `broken` fail during it. */
  datatype Publication = Publication(kind: EventType, hostname: string, bin: Bytes, broken: set<nat>)

  /** One subscription: a buffered channel and the agent it belongs to. */
  class Subscriber {
    const key: string
    const room: nat
    var ch: seq<Envelope>
    var open: bool

    constructor (key: string, backlog: seq<Envelope>)
      ensures this.key == key && room == |backlog| + SUBSCRIBER_BUFFER && ch == backlog && open
    {
      this.key := key;
      room := |backlog| + SUBSCRIBER_BUFFER;
      ch := backlog;
      open := true;
    }

    /** A receive from the channel: the oldest message, or nothing once it is closed and empty. */
    method Take() returns (change: Option<Envelope>)
      requires ch != [] || !open
      modifies this`ch
      ensures old(ch) == [] ==> change.None? && ch == []
      ensures old(ch) != [] ==> change == Some(old(ch)[0]) && ch == old(ch)[1..]
    {
      if ch == [] {
        return None;
      }
      change := Some(ch[0]);
      ch := ch[1..];
    }

    /** A channel that held `was`, after a broadcast reached it. */
    ghost predicate Offered(was: seq<Envelope>, change: Envelope)
      reads this
    {
      if |was| < room then open && ch == was + [change] else !open && ch == was
    }

    /** The non-blocking send: a full channel keeps what it holds and is closed. */
    method Offer(change: Envelope) returns (accepted: bool)
      requires open
      modifies this`ch, this`open
      ensures accepted == (old(|ch|) < room) && open == accepted
      ensures ch == if accepted then old(ch) + [change] else old(ch)
    {
      accepted := |ch| < room;
      if accepted {
        ch := ch + [change];
      } else {
        var panicked := Close();
        assert !panicked;
      }
    }

    /** Closing a closed channel is a panic. */
    method Close() returns (panicked: bool)
      modifies this`open
      ensures panicked == !old(open) && !open
    {
      panicked := !open;
      open := false;
    }
  }

  /** The agent's end of a subscription: it takes `room` more messages, then a send fails. */
  class PushStream {
    var sent: seq<Envelope>
    var room: nat

    constructor (room: nat)
      ensures sent == [] && this.room == room
    {
      sent, this.room := [], room;
    }

    method Send(change: Envelope) returns (err: bool)
      modifies this
      ensures err == (old(room) == 0)
      ensures sent == (if err then old(sent) else old(sent) + [change])
      ensures room == (if err then 0 else old(room) - 1)
    {
      if room == 0 {
        return true;
      }
      sent := sent + [change];
      room := room - 1;
      return false;
    }
  }

  class Coordinator {
    const manager: WALManager
    var subscribers: map<string, Subscriber>
    ghost var channels: set<Subscriber>  // every channel made so far

    constructor (manager: WALManager)
      requires manager.Valid()
      ensures this.manager == manager && subscribers == map[] && Valid()
    {
      this.manager := manager;
      subscribers := map[];
      channels := {};
    }

    ghost predicate Valid()
      reads this, manager.wal, channels
    {
      manager.Valid() && Registered()
    }

    /** The registered channels are open, and registered under their own key. */
    ghost predicate Registered()
      reads this, channels
    {
      forall k :: k in subscribers ==> subscribers[k] in channels && subscribers[k].key == k && subscribers[k].open
    }

    /** Broadcasts go to this channel. */
    predicate Reaches(sub: Subscriber)
      reads this
    {
      sub.key in subscribers && subscribers[sub.key] == sub
    }

    /** A channel that is open, and that no broadcast reaches. Its handler waits for ever. */
    predicate Orphaned(sub: Subscriber)
      reads this, sub
    {
      sub.open && !Reaches(sub)
    }

    /** The broadcast reaches every channel with room, in the order of broadcasts; a full channel
        keeps what it holds, is closed and loses its registration; no other channel hears of it. */
    method Broadcast(change: Envelope)
      requires Registered()
      modifies this`subscribers, channels
      ensures Registered()
      ensures forall s :: s in channels && old(Reaches(s)) && old(|s.ch|) < s.room ==>
                Reaches(s) && s.open && s.ch == old(s.ch) + [change]
      ensures forall s :: s in channels && old(Reaches(s)) && old(|s.ch|) >= s.room ==>
                s.key !in subscribers && !s.open && s.ch == old(s.ch)
      ensures forall k :: k in subscribers ==> k in old(subscribers) && subscribers[k] == old(subscribers)[k]
      ensures forall s :: s in channels && !old(Reaches(s)) ==> s.ch == old(s.ch) && s.open == old(s.open)
    {
      ghost var reached := set s | s in channels && Reaches(s);
      BroadcastAll(change, reached);
    }

    /** The loop over the registered channels. */
    method BroadcastAll(change: Envelope, ghost reached: set<Subscriber>)
      requires forall s :: s in reached ==> Reaches(s) && s.open
      requires forall k :: k in subscribers ==> subscribers[k] in reached && subscribers[k].key == k
      modifies this`subscribers, reached
      ensures forall s :: s in reached ==> s.Offered(old(s.ch), change) && (s.key in subscribers <==> s.open)
      ensures forall k :: k in subscribers ==> k in old(subscribers) && subscribers[k] == old(subscribers)[k]
    {
      hide Subscriber.Offered;
      ghost var before := subscribers;
      var keys := subscribers.Keys;
      while keys != {}
        invariant forall k :: k in keys ==> k in subscribers
        invariant forall k :: k in subscribers ==> k in before && subscribers[k] == before[k]
        invariant forall s :: s in reached && s.key in keys ==> s.ch == old(s.ch) && s.open
        invariant forall s :: s in reached && s.key !in keys ==>
                    s.Offered(old(s.ch), change) && (s.key in subscribers <==> s.open)
        decreases |keys|
      {
        var key :| key in keys;
        BroadcastTo(key, change);
        keys := keys - {key};
      }
    }

    /** The broadcast to the subscriber registered under one key. */
    method BroadcastTo(key: string, change: Envelope)
      requires key in subscribers && subscribers[key].open
      modifies this`subscribers, subscribers[key]
      ensures old(subscribers)[key].Offered(old(subscribers[key].ch), change)
      ensures subscribers == if old(|subscribers[key].ch| < subscribers[key].room) then old(subscribers)
                             else old(subscribers) - {key}
    {
      var sub := subscribers[key];
      var accepted := sub.Offer(change);
      if !accepted {
        subscribers := subscribers - {key};
      }
    }

    method Publish(kind: EventType, hostname: string, bin: Bytes, broken: set<nat>)
      returns (r: Result<nat, CoordinatorError>)
      requires manager.Valid() && Registered() && Latest(manager.wal.Log()) < MAX_INDEX
      modifies this`subscribers, channels, manager.wal`files, manager.store
      ensures manager.Valid() && Registered()
      ensures bin == [] ==> r == Err(NoBin)
      ensures bin != [] && hostname == "" ==> r == Err(NoHostname)
      ensures bin == [] || hostname == "" || kind.Unspecified? ==>
                manager.wal.Log() == old(manager.wal.Log()) && manager.store.data == old(manager.store.data)
      ensures bin != [] && hostname != "" && !kind.Unspecified? ==>
                (r.Ok? <==> Writable(old(manager.wal.Log()), Key(ToLog(kind), hostname),
                                     Latest(old(manager.wal.Log())) + 1, broken))
      ensures r.Err? ==> subscribers == old(subscribers) && Latest(manager.wal.Log()) == Latest(old(manager.wal.Log()))
      ensures r.Err? ==> forall s :: s in channels ==> s.ch == old(s.ch) && s.open == old(s.open)
      ensures r.Ok? ==> r.value == Latest(old(manager.wal.Log())) + 1 && Latest(manager.wal.Log()) == r.value
      ensures r.Ok? ==> manager.wal.Log() == Appended(old(manager.wal.Log()), r.value, Key(ToLog(kind), hostname))
      ensures r.Ok? ==>
                manager.store.data == old(manager.store.data)[manager.store.canon(Key(ToLog(kind), hostname)) := bin]
      ensures r.Ok? ==> forall s :: s in channels && old(Reaches(s)) && old(|s.ch|) < s.room ==>
                Reaches(s) && s.open && s.ch == old(s.ch) + [Envelope(kind, hostname, bin, r.value, Normal)]
      ensures r.Ok? ==> forall s :: s in channels && old(Reaches(s)) && old(|s.ch|) >= s.room ==>
                s.key !in subscribers && !s.open && s.ch == old(s.ch)
      ensures forall k :: k in subscribers ==> k in old(subscribers) && subscribers[k] == old(subscribers)[k]
      ensures r.Ok? ==> forall s :: s in channels && !old(Reaches(s)) ==> s.ch == old(s.ch) && s.open == old(s.open)
    {
      hide *;
      if |bin| == 0 {
        return Err(NoBin);
      }
      if hostname == "" {
        return Err(NoHostname);
      }
      var published := manager.Publish(kind, hostname, bin, broken);
      if published.Err? {
        return Err(NotPublished(published.error));
      }
      AppendedIsLatest(old(manager.wal.Log()), published.value.version, Key(ToLog(kind), hostname));
      Broadcast(published.value);
      return Ok(published.value.version);
    }

    /** Any number of publishes, some of which may fail, and a channel that nobody reads meanwhile and
        that has room for them: it holds what it held, followed by the changes whose publish
        succeeded, in order, under consecutive versions. `at` are the places of those changes. */
    method PublishAll(changes: seq<Publication>, sub: Subscriber) returns (at: seq<nat>)
      requires manager.Valid() && Registered() && sub in channels && Reaches(sub)
      requires Latest(manager.wal.Log()) + |changes| <= MAX_INDEX && |sub.ch| + |changes| <= sub.room
      modifies this`subscribers, channels, manager.wal`files, manager.store
      ensures manager.Valid() && Registered() && Reaches(sub)
      ensures Latest(manager.wal.Log()) == Latest(old(manager.wal.Log())) + |at|
      ensures |sub.ch| == |old(sub.ch)| + |at| && sub.ch[..|old(sub.ch)|] == old(sub.ch)
      ensures forall v :: 0 <= v < |at| ==>
                at[v] < |changes| && sub.ch[|old(sub.ch)| + v] ==
                  Envelope(changes[at[v]].kind, changes[at[v]].hostname, changes[at[v]].bin,
                           Latest(old(manager.wal.Log())) + 1 + v, Normal)
      ensures forall v, w :: 0 <= v < w < |at| ==> at[v] < at[w]
      ensures (forall c :: c in changes ==>
                 c.bin != [] && c.hostname != "" && !c.kind.Unspecified? && c.broken == {}) ==> |at| == |changes|
    {
      hide *;
      ghost var was, first := sub.ch, Latest(manager.wal.Log());
      at := [];
      for i := 0 to |changes|
        invariant manager.Valid() && Registered() && Reaches(sub)
        invariant |at| <= i && Latest(manager.wal.Log()) == first + |at|
        invariant |sub.ch| == |was| + |at| && sub.ch[..|was|] == was
        invariant forall v :: 0 <= v < |at| ==>
                    at[v] < i && sub.ch[|was| + v] ==
                      Envelope(changes[at[v]].kind, changes[at[v]].hostname, changes[at[v]].bin, first + 1 + v, Normal)
        invariant forall v, w :: 0 <= v < w < |at| ==> at[v] < at[w]
        invariant (forall c :: c in changes ==>
                     c.bin != [] && c.hostname != "" && !c.kind.Unspecified? && c.broken == {}) ==> |at| == i
      {
        var c := changes[i];
        assert c in changes;
        if c.broken == {} {
          NothingBroken(manager.wal.Log(), Key(ToLog(c.kind), c.hostname));
        }
        var r := Publish(c.kind, c.hostname, c.bin, c.broken);
        if r.Ok? {
          at := at + [i];
        }
      }
    }

    /** The start of a subscription: refused when the agent is ahead, else a channel that holds the
        whole backlog is registered under the agent's key. That orphans the channel registered under
        the key before, if there is one, and no other. */
    method Subscribe(key: string, version: nat) returns (r: Result<Subscriber, SubscribeError>)
      requires Valid()
      modifies this`subscribers, this`channels
      ensures Valid()
      ensures r.Err? <==> version > Latest(manager.wal.Log())
      ensures r.Err? ==> subscribers == old(subscribers)
      ensures r.Ok? ==>
                && fresh(r.value)
                && r.value.key == key && r.value.open
                && r.value.ch == SinceOf(manager.wal.Log(), version, manager.store.canon, manager.store.data)
                && r.value.room == |r.value.ch| + 32
                && subscribers == old(subscribers)[key := r.value] && channels == old(channels) + {r.value}
                && forall s :: s in old(channels) ==>
                          (Orphaned(s) <==> old(Orphaned(s)) || (old(Reaches(s)) && s.key == key))
    {
      hide WALManager.Valid, Latest, SinceOf;
      var latest := manager.Load();
      if version > latest {
        return Err(AheadOfMaster(version, latest));
      }
      var backlog := manager.ReplaySince(version);
      var sub := new Subscriber(key, backlog);
      subscribers := subscribers[key := sub];
      channels := channels + {sub};
      return Ok(sub);
    }

    /** A subscription, then up to 32 publishes before anything is read: the channel holds the backlog
        of the agent's version, followed by the published changes under consecutive versions. */
    method SubscribeThenPublish(key: string, version: nat, changes: seq<Publication>)
      returns (r: Result<Subscriber, SubscribeError>, at: seq<nat>)
      requires Valid() && |changes| <= 32 && Latest(manager.wal.Log()) + |changes| <= MAX_INDEX
      modifies this`subscribers, this`channels, channels, manager.wal`files, manager.store
      ensures manager.Valid() && Registered()
      ensures r.Ok? <==> version <= Latest(old(manager.wal.Log()))
      ensures r.Ok? ==>
                var backlog := SinceOf(old(manager.wal.Log()), version, manager.store.canon, old(manager.store.data));
                && r.value.open && Reaches(r.value)
                && |r.value.ch| == |backlog| + |at| && r.value.ch[..|backlog|] == backlog
                && forall v :: 0 <= v < |at| ==>
                       at[v] < |changes| && r.value.ch[|backlog| + v] ==
                         Envelope(changes[at[v]].kind, changes[at[v]].hostname, changes[at[v]].bin,
                                  Latest(old(manager.wal.Log())) + 1 + v, Normal)
      ensures r.Ok? && (forall c :: c in changes ==>
                          c.bin != [] && c.hostname != "" && !c.kind.Unspecified? && c.broken == {}) ==>
                |at| == |changes|
    {
      hide WALManager.Valid, FileWAL.Log, Latest, SinceOf;
      at := [];
      r := Subscribe(key, version);
      if r.Ok? {
        assert subscribers[key] == r.value;
        at := PublishAll(changes, r.value);
      }
    }

    /** The handler's loop over what its channel holds: messages are sent in order until the channel
        is empty or a send fails; a message whose send fails is gone. */
    method Deliver(sub: Subscriber, stream: PushStream) returns (err: bool)
      modifies sub`ch, stream
      ensures err <==> old(stream.room) < old(|sub.ch|)
      ensures err ==> stream.sent == old(stream.sent) + old(sub.ch)[..old(stream.room)]
                      && sub.ch == old(sub.ch)[old(stream.room) + 1..]
      ensures !err ==> stream.sent == old(stream.sent) + old(sub.ch) && sub.ch == []
    {
      ghost var all := sub.ch;
      ghost var n := 0;
      while sub.ch != []
        invariant n <= |all| && sub.ch == all[n..]
        invariant n <= old(stream.room) && stream.room == old(stream.room) - n
        invariant stream.sent == old(stream.sent) + all[..n]
        decreases |sub.ch|
      {
        var change := sub.Take();
        err := stream.Send(change.value);
        if err {
          return;
        }
        assert all[..n + 1] == all[..n] + [all[n]];
        n := n + 1;
      }
      assert all[..n] == all;
      return false;
    }

    /** What a subscription's handler does when it returns, for whatever reason. It removes whoever
        is registered under its key, and closes its own channel - a second time, which panics, if
        the channel was evicted. That orphans another subscription's channel exactly when another is
        registered under the key. */
    method Cleanup(sub: Subscriber) returns (panicked: bool)
      requires manager.Valid()
      modifies this`subscribers, sub`open
      ensures subscribers == old(subscribers) - {sub.key}
      ensures panicked == !old(sub.open) && !sub.open
      ensures old(Valid()) ==> Valid()
      ensures old(Valid()) ==>
                forall s :: s in channels && s != sub ==>
                  (Orphaned(s) <==> old(Orphaned(s)) || (old(Reaches(s)) && s.key == sub.key))
      ensures old(Valid()) ==>
                ((exists s :: s in channels && s != sub && Orphaned(s) && !old(Orphaned(s))) <==>
                 sub.key in old(subscribers) && old(subscribers)[sub.key] != sub)
    {
      hide WALManager.Valid;
      ghost var registered := if sub.key in subscribers then subscribers[sub.key] else sub;
      subscribers := subscribers - {sub.key};
      panicked := sub.Close();
      assert old(Valid()) && registered != sub ==> Orphaned(registered) && !old(Orphaned(registered));
    }

    /** An agent reconnects, and the handler of its first connection returns only then: the new
        subscription is taken out again, its channel open. */
    method Overtaken(first: Subscriber, version: nat) returns (r: Result<Subscriber, SubscribeError>)
      requires Valid() && first in channels
      modifies this`subscribers, this`channels, first`open
      ensures Valid()
      ensures r.Ok? <==> version <= Latest(manager.wal.Log())
      ensures r.Ok? ==> fresh(r.value) && r.value.key == first.key && Orphaned(r.value)
    {
      hide WALManager.Valid, Latest, SinceOf;
      r := Subscribe(first.key, version);
      if r.Ok? {
        var _ := Cleanup(first);
      }
    }
  }
  lemma AppendedIsLatest(log: seq<Item>, index: nat, key: Key)
    ensures Latest(Appended(log, index, key)) == index
  {
  }

  lemma NothingBroken(log: seq<Item>, key: Key)
    ensures Writable(log, key, Latest(log) + 1, {})
  {
  }
}
