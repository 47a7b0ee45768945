/** A store and the write-ahead log of the changes made to it. */
module WalManagers {
  import opened Events
  import opened WalLog
  import opened ChangeStores
  import opened FileWals

  datatype PublishError = NotPersisted(reason: StoreError) | NotAppended

  class WALManager {
    const wal: FileWAL
    const store: ChangeStore

    constructor (wal: FileWAL, store: ChangeStore)
      requires wal.Valid() && wal.store == store
      ensures this.wal == wal && this.store == store && Valid()
    {
      this.wal := wal;
      this.store := store;
    }

    ghost predicate Valid()
      reads wal
    {
      wal.Valid() && wal.store == store
    }

    /** Persists the change, then appends it. Where the append fails the store stays ahead of the
        log. */
    method Publish(kind: EventType, hostname: string, bin: Bytes, broken: set<nat>)
      returns (r: Result<Envelope, PublishError>)
      requires Valid() && Latest(wal.Log()) < MAX_INDEX
      modifies wal`files, store
      ensures Valid()
      ensures kind.Unspecified? <==> r.Err? && r.error.NotPersisted?
      ensures kind.Unspecified? ==> store.data == old(store.data) && wal.Log() == old(wal.Log())
      ensures !kind.Unspecified? ==> store.data == old(store.data)[store.canon(Key(ToLog(kind), hostname)) := bin]
      ensures r.Ok? ==> r.value == Envelope(kind, hostname, bin, Latest(old(wal.Log())) + 1, Normal)
      ensures r.Ok? ==> wal.Log() == Appended(old(wal.Log()), Latest(old(wal.Log())) + 1, Key(ToLog(kind), hostname))
      ensures r.Ok? && old(Dense(wal.Log())) ==> Dense(wal.Log())
      ensures r.Ok? && old(Exact(wal.Log())) ==> Exact(wal.Log())
      ensures !kind.Unspecified? ==>
                (r.Ok? <==> Writable(old(wal.Log()), Key(ToLog(kind), hostname), Latest(old(wal.Log())) + 1, broken))
      ensures !kind.Unspecified? && r.Err? ==> wal.Log() == LeftBy(old(wal.Log()), Key(ToLog(kind), hostname), broken)
      ensures r.Err? ==> Latest(wal.Log()) == Latest(old(wal.Log()))
    {
      hide Latest, Appended, Exact, Dense, WalOk, Writable, LeftBy;
      var change := Envelope(kind, hostname, bin, 0, Normal);
      var persisted := store.Persist(change);
      if persisted.Err? {
        return Err(NotPersisted(persisted.error));
      }
      var appended := wal.Append(change, broken);
      if appended.Err? {
        return Err(NotAppended);
      }
      return Ok(appended.value);
    }

    method ReplaySince(version: nat) returns (out: seq<Envelope>)
      requires Valid()
      ensures out == SinceOf(wal.Log(), version, store.canon, store.data)
    {
      out := wal.Since(version);
    }

    method Load() returns (version: nat)
      requires Valid()
      ensures version == Latest(wal.Log())
    {
      version := wal.LatestLocked();
    }

    method SaveApplied(change: Envelope, broken: set<nat>) returns (r: Result<(), WalError>)
      requires Valid()
      modifies wal`files
      ensures Valid()
      ensures r.Ok? <==> change.version <= Latest(old(wal.Log()))
                         || Writable(old(wal.Log()), KeyOf(change), change.version, broken)
      ensures r.Ok? ==> wal.Log() == if change.version <= Latest(old(wal.Log())) then old(wal.Log())
                                     else Appended(old(wal.Log()), change.version, KeyOf(change))
      ensures r.Ok? ==> Latest(wal.Log()) == if change.version <= Latest(old(wal.Log())) then Latest(old(wal.Log()))
                                             else change.version
      ensures r.Err? ==> wal.Log() == LeftBy(old(wal.Log()), KeyOf(change), broken)
      ensures r.Err? ==> Latest(wal.Log()) == Latest(old(wal.Log()))
    {
      hide Latest, Appended, Exact, WalOk, Writable, LeftBy;
      var appended := wal.AppendApplied(change, broken);
      if appended.Err? {
        return Err(WriteFailed);
      }
      return Ok(());
    }
  }
}
