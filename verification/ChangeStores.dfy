/** The key-value stores zones are persisted in: the master's object store and an agent's files. */
module ChangeStores {
  import opened Events

  datatype StoreError = UnsupportedType | NotFound | HostnameRequired | BinRequired

  function Loaded(canon: Canon, data: map<StorePath, Bytes>, kind: EventType, host: string): Result<Bytes, StoreError> {
    if kind.Unspecified? then Err(UnsupportedType)
    else if canon(Key(ToLog(kind), host)) !in data then Err(NotFound)
    else Ok(data[canon(Key(ToLog(kind), host))])
  }

  /** What Apply insists on before it writes anything. */
  function ApplyError(change: Envelope): Option<StoreError> {
    if change.hostname == "" then Some(HostnameRequired)
    else if change.bin == [] then Some(BinRequired)
    else if change.kind.Unspecified? then Some(UnsupportedType)
    else None
  }

  /** A store after these changes were applied in order. */
  function StoreAfter(canon: Canon, data: map<StorePath, Bytes>, changes: seq<Envelope>): map<StorePath, Bytes> {
    if changes == [] then data
    else
      var last := changes[|changes| - 1];
      StoreAfter(canon, data, changes[..|changes| - 1])[canon(KeyOf(last)) := last.bin]
  }

  /** After any changes, a load gives the bytes of the last change filed under its path, be it under
      another raw key; and what was there before if there is none. */
  lemma {:induction false} LoadedIsLast(canon: Canon, data: map<StorePath, Bytes>, changes: seq<Envelope>, i: int,
                                        kind: EventType, host: string)
    requires -1 <= i < |changes| && !kind.Unspecified?
    requires i >= 0 ==> canon(KeyOf(changes[i])) == canon(Key(ToLog(kind), host))
    requires forall j :: i < j < |changes| ==> canon(KeyOf(changes[j])) != canon(Key(ToLog(kind), host))
    ensures Loaded(canon, StoreAfter(canon, data, changes), kind, host)
         == if i >= 0 then Ok(changes[i].bin) else Loaded(canon, data, kind, host)
  {
    if changes != [] && i < |changes| - 1 {
      LoadedIsLast(canon, data, changes[..|changes| - 1], i, kind, host);
    }
  }

  class ChangeStore {
    const canon: Canon
    var data: map<StorePath, Bytes>

    constructor (canon: Canon)
      ensures this.canon == canon && data == map[]
    {
      this.canon := canon;
      data := map[];
    }

    method Persist(change: Envelope) returns (r: Result<(), StoreError>)
      modifies this
      ensures r == if change.kind.Unspecified? then Err(UnsupportedType) else Ok(())
      ensures r.Err? ==> data == old(data)
      ensures r.Ok? ==> data == old(data)[canon(KeyOf(change)) := change.bin]
    {
      if change.kind.Unspecified? {
        return Err(UnsupportedType);
      }
      data := data[canon(KeyOf(change)) := change.bin];
      return Ok(());
    }

    method Load(kind: EventType, host: string) returns (r: Result<Bytes, StoreError>)
      ensures r == Loaded(canon, data, kind, host)
    {
      if kind.Unspecified? {
        return Err(UnsupportedType);
      }
      var target := canon(Key(ToLog(kind), host));
      if target !in data {
        return Err(NotFound);
      }
      return Ok(data[target]);
    }

    method Apply(change: Envelope) returns (r: Result<(), StoreError>)
      modifies this
      ensures r == (match ApplyError(change) case Some(e) => Err(e) case None => Ok(()))
      ensures r.Ok? <==> change.hostname != "" && change.bin != [] && !change.kind.Unspecified?
      ensures r == Err(HostnameRequired) <==> change.hostname == ""
      ensures r == Err(BinRequired) <==> change.hostname != "" && change.bin == []
      ensures r.Err? ==> data == old(data)
      ensures r.Ok? ==> data == old(data)[canon(KeyOf(change)) := change.bin]
    {
      if change.hostname == "" {
        return Err(HostnameRequired);
      }
      if change.bin == [] {
        return Err(BinRequired);
      }
      r := Persist(change);
    }
  }
}
