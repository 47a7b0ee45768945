/** ClientHellos as sections 4.1.2, 4.2 and 5.1 of RFC 8446 and section 3 of RFC 6066 write them, byte by
    byte. Nothing here is shared with the parser. */
module TlsStandard {
  import opened Events

  datatype ServerNameEntry = ServerNameEntry(nameType: Byte, name: Bytes)

  datatype TlsExtension = ServerNames(names: seq<ServerNameEntry>) | Other(extensionType: nat, data: Bytes)

  datatype ClientHello = ClientHello(version: Bytes, random: Bytes, session: Bytes, ciphers: Bytes,
                                     compression: Bytes, extensions: seq<TlsExtension>)

  // ---------------------------------------------------------------------------------------------
  // Vectors: a length, its high byte first, and the content

  function Opaque8(b: Bytes): Bytes
    requires |b| < 256
  {
    [|b|] + b
  }

  function Opaque16(b: Bytes): Bytes
    requires |b| < 65536
  {
    [|b| / 256, |b| % 256] + b
  }

  // ---------------------------------------------------------------------------------------------
  // Extensions. The server_name extension has type 0, and a host name in it name type 0.

  predicate WellFormedNames(names: seq<ServerNameEntry>) {
    forall n :: n in names ==> 0 < |n.name| < 65536
  }

  function EncodeServerNames(names: seq<ServerNameEntry>): Bytes
    requires WellFormedNames(names)
  {
    if names == [] then [] else [names[0].nameType] + Opaque16(names[0].name) + EncodeServerNames(names[1..])
  }

  predicate WellFormedExtension(e: TlsExtension) {
    match e
    case Other(extensionType, data) => 0 < extensionType < 65536 && |data| < 65536
    case ServerNames(names) => names != [] && WellFormedNames(names) && |EncodeServerNames(names)| + 2 < 65536
  }

  function EncodeTlsExtension(e: TlsExtension): Bytes
    requires WellFormedExtension(e)
  {
    match e
    case Other(extensionType, data) => [extensionType / 256, extensionType % 256] + Opaque16(data)
    case ServerNames(names) => [0, 0] + Opaque16(Opaque16(EncodeServerNames(names)))
  }

  predicate WellFormedExtensions(es: seq<TlsExtension>) {
    forall e :: e in es ==> WellFormedExtension(e)
  }

  function EncodeTlsExtensions(es: seq<TlsExtension>): Bytes
    requires WellFormedExtensions(es)
  {
    if es == [] then [] else EncodeTlsExtension(es[0]) + EncodeTlsExtensions(es[1..])
  }

  // ---------------------------------------------------------------------------------------------
  // The ClientHello, the handshake message of type 1 and the record of type 22

  predicate WellFormed(h: ClientHello) {
    && |h.version| == 2 && |h.random| == 32 && |h.session| <= 32
    && 2 <= |h.ciphers| <= 65534 && |h.ciphers| % 2 == 0
    && 1 <= |h.compression| < 256
    && WellFormedExtensions(h.extensions)
    && |EncodeTlsExtensions(h.extensions)| < 65536
  }

  function EncodeClientHello(h: ClientHello): (b: Bytes)
    requires WellFormed(h)
    ensures |b| < 0x100_0000
  {
    h.version + h.random + Opaque8(h.session) + Opaque16(h.ciphers) + Opaque8(h.compression)
    + Opaque16(EncodeTlsExtensions(h.extensions))
  }

  function EncodeHandshake(h: ClientHello): (b: Bytes)
    requires WellFormed(h)
    ensures |b| > 4
  {
    var hello := EncodeClientHello(h);
    [1, |hello| / 65536, |hello| / 256 % 256, |hello| % 256] + hello
  }

  function EncodeRecord(version: Bytes, fragment: Bytes): Bytes
    requires |version| == 2 && |fragment| < 65536
  {
    [22] + version + Opaque16(fragment)
  }

  // ---------------------------------------------------------------------------------------------
  // What it asks for

  function FirstHost(names: seq<ServerNameEntry>): Bytes {
    if names == [] then [] else if names[0].nameType == 0 then names[0].name else FirstHost(names[1..])
  }

  /** The first host name of the first server_name extension; empty when there is none. */
  function Requested(es: seq<TlsExtension>): Bytes {
    if es == [] then []
    else match es[0]
      case ServerNames(names) => FirstHost(names)
      case Other(_, _) => Requested(es[1..])
  }
}
