/** The parser that reads the server name out of a TLS ClientHello, and the grammar it inverts.
    Formats: sections 4.1.2 and 4.2 of RFC 8446, section 3 of RFC 6066. */
module ClientHellos {
  import opened Events

  datatype HelloError =
    | NotClientHello | TruncatedHello | TruncatedVersion
    | TruncatedSessionLen | TruncatedSession
    | TruncatedCiphersLen | TruncatedCiphers
    | TruncatedCompressionLen | TruncatedCompression
    | TruncatedExtensionsLen | TruncatedExtensions | TruncatedExtension
    | TruncatedNames | TruncatedNameList | TruncatedName

  /** The server name, empty when the ClientHello names none. */
  type Parsed = Result<Bytes, HelloError>

  const CLIENT_HELLO: Byte := 1
  const SERVER_NAME := 0
  const HOST_NAME: Byte := 0

  // ---------------------------------------------------------------------------------------------
  // Numbers

  function U16(hi: Byte, lo: Byte): nat {
    hi * 256 + lo
  }

  function U24(hi: Byte, mid: Byte, lo: Byte): nat {
    hi * 65536 + mid * 256 + lo
  }

  function Num16(n: nat): (b: Bytes)
    requires n < 65536
    ensures |b| == 2 && U16(b[0], b[1]) == n
  {
    [n / 256, n % 256]
  }

  function Num24(n: nat): (b: Bytes)
    requires n < 0x100_0000
    ensures |b| == 3 && U24(b[0], b[1], b[2]) == n
  {
    [n / 65536, n / 256 % 256, n % 256]
  }

  // ---------------------------------------------------------------------------------------------
  // What the parser computes, read off the bytes that are left

  datatype Cut = NoLength | TooShort | Cut(head: Bytes, rest: Bytes)

  function Vector8(b: Bytes): Cut {
    if |b| < 1 then NoLength
    else if 1 + b[0] > |b| then TooShort
    else Cut(b[1..1 + b[0]], b[1 + b[0]..])
  }

  function Vector16(b: Bytes): Cut {
    if |b| < 2 then NoLength
    else
      var n := U16(b[0], b[1]);
      if 2 + n > |b| then TooShort else Cut(b[2..2 + n], b[2 + n..])
  }

  function HostNameIn(names: Bytes): Parsed {
    if |names| < 3 then Ok([])
    else
      var n := U16(names[1], names[2]);
      if 3 + n > |names| then Err(TruncatedName)
      else if names[0] == HOST_NAME then Ok(names[3..3 + n])
      else HostNameIn(names[3 + n..])
  }

  function HostNameOf(ext: Bytes): Parsed {
    if |ext| < 2 then Err(TruncatedNames)
    else if U16(ext[0], ext[1]) + 2 > |ext| then Err(TruncatedNameList)
    else HostNameIn(ext[2..])
  }

  function ServerNameIn(block: Bytes): Parsed {
    if |block| < 4 then Ok([])
    else
      var n := U16(block[2], block[3]);
      if 4 + n > |block| then Err(TruncatedExtension)
      else if U16(block[0], block[1]) == SERVER_NAME then HostNameOf(block[4..4 + n])
      else ServerNameIn(block[4 + n..])
  }

  function AfterCompression(b: Bytes): Parsed {
    match Vector16(b)
    case NoLength => Err(TruncatedExtensionsLen)
    case TooShort => Err(TruncatedExtensions)
    case Cut(block, _) => ServerNameIn(block)
  }

  function AfterCiphers(b: Bytes): Parsed {
    match Vector8(b)
    case NoLength => Err(TruncatedCompressionLen)
    case TooShort => Err(TruncatedCompression)
    case Cut(_, rest) => AfterCompression(rest)
  }

  function AfterSession(b: Bytes): Parsed {
    match Vector16(b)
    case NoLength => Err(TruncatedCiphersLen)
    case TooShort => Err(TruncatedCiphers)
    case Cut(_, rest) => AfterCiphers(rest)
  }

  function AfterRandom(b: Bytes): Parsed {
    match Vector8(b)
    case NoLength => Err(TruncatedSessionLen)
    case TooShort => Err(TruncatedSession)
    case Cut(_, rest) => AfterSession(rest)
  }

  function ServerName(body: Bytes): Parsed {
    if |body| < 4 || body[0] != CLIENT_HELLO then Err(NotClientHello)
    else if U24(body[1], body[2], body[3]) + 4 > |body| then Err(TruncatedHello)
    else if |body| < 38 then Err(TruncatedVersion)
    else AfterRandom(body[38..])
  }

  // ---------------------------------------------------------------------------------------------
  // The parser

  method ParseServerNameExtension(ext: Bytes) returns (r: Parsed)
    ensures r == HostNameOf(ext)
  {
    if |ext| < 2 {
      return Err(TruncatedNames);
    }
    var listLen := U16(ext[0], ext[1]);
    if listLen + 2 > |ext| {
      return Err(TruncatedNameList);
    }
    var p := 2;
    while p + 3 <= |ext|
      invariant 2 <= p <= |ext|
      invariant HostNameIn(ext[p..]) == HostNameIn(ext[2..])
    {
      ghost var left := ext[p..];
      var nameType := ext[p];
      var nameLen := U16(ext[p + 1], ext[p + 2]);
      p := p + 3;
      if p + nameLen > |ext| {
        return Err(TruncatedName);
      }
      if nameType == HOST_NAME {
        assert left[3..3 + nameLen] == ext[p..p + nameLen];
        return Ok(ext[p..p + nameLen]);
      }
      p := p + nameLen;
      assert left[3 + nameLen..] == ext[p..];
    }
    return Ok([]);
  }

  method ParseClientHello(body: Bytes) returns (r: Parsed)
    ensures r == ServerName(body)
  {
    hide Vector8, Vector16, ServerNameIn;
    if |body| < 4 || body[0] != CLIENT_HELLO {
      return Err(NotClientHello);
    }
    var helloLen := U24(body[1], body[2], body[3]);
    if helloLen + 4 > |body| {
      return Err(TruncatedHello);
    }
    var p := 4;
    if p + 2 + 32 > |body| {
      return Err(TruncatedVersion);
    }
    p := p + 2 + 32;

    Vector8At(body, p);
    if p + 1 > |body| {
      return Err(TruncatedSessionLen);
    }
    var sessionIdLen := body[p];
    p := p + 1;
    if p + sessionIdLen > |body| {
      return Err(TruncatedSession);
    }
    p := p + sessionIdLen;

    Vector16At(body, p);
    if p + 2 > |body| {
      return Err(TruncatedCiphersLen);
    }
    var cipherSuitesLen := U16(body[p], body[p + 1]);
    p := p + 2;
    if p + cipherSuitesLen > |body| {
      return Err(TruncatedCiphers);
    }
    p := p + cipherSuitesLen;

    Vector8At(body, p);
    if p + 1 > |body| {
      return Err(TruncatedCompressionLen);
    }
    var compressionMethodsLen := body[p];
    p := p + 1;
    if p + compressionMethodsLen > |body| {
      return Err(TruncatedCompression);
    }
    p := p + compressionMethodsLen;

    Vector16At(body, p);
    if p + 2 > |body| {
      return Err(TruncatedExtensionsLen);
    }
    var extensionsLen := U16(body[p], body[p + 1]);
    p := p + 2;
    if p + extensionsLen > |body| {
      return Err(TruncatedExtensions);
    }
    r := ParseExtensions(body, p, p + extensionsLen);
  }

  /** The loop over the extensions. */
  method ParseExtensions(body: Bytes, start: nat, extensionsEnd: nat) returns (r: Parsed)
    requires start <= extensionsEnd <= |body|
    ensures r == ServerNameIn(body[start..extensionsEnd])
  {
    hide HostNameOf;
    var p := start;
    while p + 4 <= extensionsEnd
      invariant start <= p <= extensionsEnd
      invariant ServerNameIn(body[p..extensionsEnd]) == ServerNameIn(body[start..extensionsEnd])
    {
      var extType := U16(body[p], body[p + 1]);
      var extLen := U16(body[p + 2], body[p + 3]);
      p := p + 4;
      if p + extLen > extensionsEnd {
        return Err(TruncatedExtension);
      }
      SliceOfSlice(body, p - 4, extensionsEnd, 4, 4 + extLen);
      if extType == SERVER_NAME {
        r := ParseServerNameExtension(body[p..p + extLen]);
        return;
      }
      SliceOfSlice(body, p - 4, extensionsEnd, 4 + extLen, extensionsEnd - (p - 4));
      p := p + extLen;
    }
    return Ok([]);
  }

  lemma SliceOfSlice(b: Bytes, from: nat, to: nat, i: nat, j: nat)
    requires from <= to <= |b| && i <= j <= to - from
    ensures b[from..to][i..j] == b[from + i..from + j]
  {
    var s := b[from..to];
    assert |s[i..j]| == |b[from + i..from + j]|;
    assert forall k :: 0 <= k < j - i ==> s[i..j][k] == s[i + k] == b[from + i..from + j][k];
  }

  lemma Vector8At(b: Bytes, p: nat)
    requires p <= |b|
    ensures Vector8(b[p..]) == if p + 1 > |b| then NoLength else if p + 1 + b[p] > |b| then TooShort
                               else Cut(b[p + 1..p + 1 + b[p]], b[p + 1 + b[p]..])
  {
    if p + 1 <= |b| && p + 1 + b[p] <= |b| {
      assert b[p..][1..1 + b[p]] == b[p + 1..p + 1 + b[p]];
      assert b[p..][1 + b[p]..] == b[p + 1 + b[p]..];
    }
  }

  lemma Vector16At(b: Bytes, p: nat)
    requires p <= |b|
    ensures Vector16(b[p..]) ==
            if p + 2 > |b| then NoLength
            else var n := U16(b[p], b[p + 1]);
              if p + 2 + n > |b| then TooShort else Cut(b[p + 2..p + 2 + n], b[p + 2 + n..])
  {
    if p + 2 <= |b| {
      var n := U16(b[p], b[p + 1]);
      if p + 2 + n <= |b| {
        assert b[p..][2..2 + n] == b[p + 2..p + 2 + n];
        assert b[p..][2 + n..] == b[p + 2 + n..];
      }
    }
  }
}
