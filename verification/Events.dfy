/** Changes as they travel from the master to its agents, and the keys they are filed under. */
module Events {

  datatype Option<+T> = None | Some(value: T)

  datatype Result<+T, +E> = Ok(value: T) | Err(error: E)

  type Byte = b: int | 0 <= b < 256

  type Bytes = seq<Byte>

  /** The greatest 64-bit index. Indexes are naturals here; the places where the code's uint64
      arithmetic could wrap say so. */
  const MAX_INDEX: nat := 0xFFFF_FFFF_FFFF_FFFF

  /** The room a subscriber's channel has past its backlog. */
  const SUBSCRIBER_BUFFER: nat := 32

  datatype EventType = Unspecified | Dns | Tls | Http

  /** The event types the log file format knows; it has no "unspecified". */
  datatype LogType = LogDns | LogTls | LogHttp

  /** A raw log key: the hostname exactly as the publisher wrote it. */
  datatype Key = Key(kind: LogType, host: string)

  /** Where a zone's bytes live: an object key on the master, a file path on an agent. */
  type StorePath = string

  /** The canonical (sanitised and hashed) place of a raw key. Nothing is assumed of it:
      several raw keys may share one place. */
  type Canon = Key -> StorePath

  datatype Tier = Normal | Recover | OtherTier

  datatype Envelope = Envelope(kind: EventType, hostname: string, bin: Bytes, version: nat, tier: Tier)

  function ToLog(t: EventType): LogType {
    match t
    case Dns => LogDns
    case Tls => LogTls
    case Http => LogHttp
    case Unspecified => LogDns
  }

  function FromLog(t: LogType): EventType {
    match t
    case LogDns => Dns
    case LogTls => Tls
    case LogHttp => Http
  }

  function KeyOf(env: Envelope): Key {
    Key(ToLog(env.kind), env.hostname)
  }

  function Least(a: nat, b: nat): nat {
    if a < b then a else b
  }

  /** uint64 successor. */
  function Succ64(n: nat): nat {
    if n == MAX_INDEX then 0 else n + 1
  }
}
