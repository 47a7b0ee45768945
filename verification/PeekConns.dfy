/** The connection that records what the server-name lookup reads and replays it afterwards. */
module PeekConns {
  import opened Events
  import opened ClientHellos
  import opened HelloGrammar
  import opened WellFormedHellos
  import opened TlsStandard

  /** What the network does with one read: how much it has ready, and whether it reports an error. */
  datatype Delivery = Delivery(size: nat, failing: bool)

  /** A client's connection. `pending` is what the client sent and nobody read yet. Reads follow
      `script`, which may hold them to any size, fail them, or both; past its end they fail. */
  class Conn {
    var pending: Bytes
    var script: seq<Delivery>
    var failed: bool  // some read has reported an error

    constructor (sent: Bytes, script: seq<Delivery>)
      ensures pending == sent && this.script == script && !failed
    {
      pending, this.script, failed := sent, script, false;
    }

    /** Reads into p[from..]. */
    method Read(p: array<Byte>, from: nat) returns (n: nat, err: bool)
      requires from <= p.Length
      modifies this, p
      ensures n <= p.Length - from
      ensures old(pending) == p[from..from + n] + pending
      ensures p[..from] == old(p[..from])
      ensures old(script) == [] ==> n == 0 && err && script == []
      ensures old(script) != [] ==>
                && script == old(script)[1..]
                && n == Least(old(script)[0].size, Least(p.Length - from, |old(pending)|))
                && err == old(script)[0].failing
      ensures failed == (old(failed) || err)
    {
      if script == [] {
        failed := true;
        return 0, true;
      }
      n := Least(script[0].size, Least(p.Length - from, |pending|));
      err := script[0].failing;
      CopyInto(p, from, pending[..n]);
      pending := pending[n..];
      script := script[1..];
      failed := failed || err;
    }
  }

  method CopyInto(p: array<Byte>, from: nat, data: Bytes)
    requires from + |data| <= p.Length
    modifies p
    ensures p[from..from + |data|] == data
    ensures p[..from] == old(p[..from])
  {
    for i := 0 to |data|
      invariant p[from..from + i] == data[..i]
      invariant p[..from] == old(p[..from])
    {
      p[from + i] := data[i];
    }
  }

  lemma ArrayJoin(p: array<Byte>, i: nat, j: nat)
    requires i <= j <= p.Length
    ensures p[..j] == p[..i] + p[i..j]
  {
  }

  class PeekConn {
    const conn: Conn
    var buf: Bytes
    var capture: bool
    var recorded: Bytes

    constructor (conn: Conn)
      ensures this.conn == conn && capture && recorded == [] && Unread() == conn.pending && Valid()
    {
      this.conn := conn;
      buf, capture, recorded := [], true, [];
    }

    /** Nothing is replayed while reads are recorded. */
    predicate Valid()
      reads this
    {
      capture ==> buf == []
    }

    /** What the next reads will return, in order. */
    function Unread(): Bytes
      reads this, conn
    {
      buf + conn.pending
    }

    /** Every read makes this smaller, fails or has no room. */
    ghost function Work(): nat
      reads this, conn
    {
      |conn.script| + |Unread()|
    }

    method Read(p: array<Byte>, from: nat) returns (n: nat, err: bool)
      requires Valid() && from <= p.Length
      modifies this, conn, p
      ensures Valid() && n <= p.Length - from
      ensures old(Unread()) == p[from..from + n] + Unread()
      ensures p[..from] == old(p[..from])
      ensures capture == old(capture)
      ensures recorded == if capture then old(recorded) + p[from..from + n] else old(recorded)
      ensures err ==> conn.failed && buf == []
      ensures Work() <= old(Work()) && (!err && from < p.Length ==> Work() < old(Work()))
    {
      if |buf| > 0 {
        n := Least(p.Length - from, |buf|);
        CopyInto(p, from, buf[..n]);
        buf := buf[n..];
        return n, false;
      }
      n, err := conn.Read(p, from);
      if capture && n > 0 {
        recorded := recorded + p[from..from + n];
      }
    }

    method ResetReplay()
      modifies this
      ensures Valid() && !capture && recorded == old(recorded)
      ensures Unread() == recorded + conn.pending
    {
      capture := false;
      buf := recorded;
    }

    /** Reads until p is full or a read fails. */
    method ReadFull(p: array<Byte>) returns (n: nat, err: bool)
      requires Valid()
      modifies this, conn, p
      ensures Valid() && n <= p.Length && err == (n < p.Length)
      ensures old(Unread()) == p[..n] + Unread()
      ensures capture == old(capture)
      ensures recorded == if capture then old(recorded) + p[..n] else old(recorded)
      ensures err ==> conn.failed
    {
      hide PeekConn.Unread, PeekConn.Work, PeekConn.Valid;
      n, err := 0, false;
      while n < p.Length && !err
        invariant Valid() && n <= p.Length
        invariant old(Unread()) == p[..n] + Unread()
        invariant capture == old(capture)
        invariant recorded == if capture then old(recorded) + p[..n] else old(recorded)
        invariant err ==> conn.failed
        decreases Work(), !err
      {
        ghost var before := p[..n];
        var nn: nat;
        nn, err := Read(p, n);
        ghost var chunk := p[n..n + nn];
        assert p[..n + nn] == before + chunk by { ArrayJoin(p, n, n + nn); }
        Reassociated(before, chunk, Unread());
        Reassociated(old(recorded), before, chunk);
        n := n + nn;
      }
      err := n < p.Length;
    }

    /** Reads into buffers of the given sizes, whatever comes of each read: what a TLS server on top
        of the connection does. */
    method ReadInSizes(sizes: seq<nat>) returns (got: Bytes)
      requires Valid()
      modifies this, conn
      ensures Valid()
      ensures old(Unread()) == got + Unread()
    {
      got := [];
      for i := 0 to |sizes|
        invariant Valid()
        invariant old(Unread()) == got + Unread()
      {
        var p := new Byte[sizes[i]];
        var n, _ := Read(p, 0);
        got := got + p[..n];
      }
    }
  }

  // ---------------------------------------------------------------------------------------------
  // The server name of a stream

  datatype SniError = NoHeader | NotHandshake | EmptyRecord | NoBody | BadHello(reason: HelloError) | NoServerName

  const HANDSHAKE: Byte := 22

  /** The body of the first record of a stream. */
  function RecordOf(stream: Bytes): Result<Bytes, SniError> {
    if |stream| < 5 then Err(NoHeader)
    else if stream[0] != HANDSHAKE then Err(NotHandshake)
    else
      var length := U16(stream[3], stream[4]);
      if length == 0 then Err(EmptyRecord)
      else if |stream| < 5 + length then Err(NoBody)
      else Ok(stream[5..5 + length])
  }

  function NameOfRecord(body: Bytes): Result<Bytes, SniError> {
    match ServerName(body)
    case Err(e) => Err(BadHello(e))
    case Ok(name) => if name == [] then Err(NoServerName) else Ok(name)
  }

  /** What the lookup answers for a client whose bytes all arrive. */
  function SniOf(stream: Bytes): Result<Bytes, SniError> {
    match RecordOf(stream)
    case Err(e) => Err(e)
    case Ok(body) => NameOfRecord(body)
  }

  /** Reads one record: its header, then its body. */
  method ReadRecord(c: PeekConn) returns (r: Result<Bytes, SniError>)
    requires c.Valid() && c.capture && c.recorded == []
    modifies c, c.conn
    ensures c.Valid() && c.capture
    ensures c.recorded + c.Unread() == old(c.Unread())
    ensures r == RecordOf(old(c.Unread())) || (c.conn.failed && r.Err? && (r.error.NoHeader? || r.error.NoBody?))
  {
    hide *;
    ghost var all := c.Unread();
    var header := new Byte[5];
    var n, err := c.ReadFull(header);
    if err {
      return Err(NoHeader);
    }
    ghost var head, rest := header[..], c.Unread();
    assert header[..n] == head;
    assert c.recorded == head && all == head + rest;
    RecordHead(head, rest);
    if header[0] != HANDSHAKE {
      return Err(NotHandshake);
    }
    var length := U16(header[3], header[4]);
    if length <= 0 {
      return Err(EmptyRecord);
    }
    var body := new Byte[length];
    n, err := c.ReadFull(body);
    ghost var part := body[..n];
    assert c.recorded == head + part && rest == part + c.Unread();
    Reassociated(head, part, c.Unread());
    if err {
      return Err(NoBody);
    }
    assert part == body[..];
    RecordIs(head, part, c.Unread());
    return Ok(body[..]);
  }

  lemma RecordHead(header: Bytes, rest: Bytes)
    requires |header| == 5
    ensures header[0] != HANDSHAKE ==> RecordOf(header + rest) == Err(NotHandshake)
    ensures header[0] == HANDSHAKE && U16(header[3], header[4]) == 0 ==> RecordOf(header + rest) == Err(EmptyRecord)
  {
  }

  lemma RecordIs(header: Bytes, body: Bytes, rest: Bytes)
    requires |header| == 5 && header[0] == HANDSHAKE && U16(header[3], header[4]) == |body| > 0
    ensures RecordOf(header + (body + rest)) == Ok(body)
  {
    var stream := header + (body + rest);
    assert stream[5..5 + |body|] == body;
  }

  /** However the client's bytes arrive, the answer is that of the whole stream unless a read fails
      first, and after a successful lookup the connection returns the stream from its first byte. */
  method ReadSni(c: PeekConn) returns (r: Result<Bytes, SniError>)
    requires c.Valid() && c.capture && c.recorded == []
    modifies c, c.conn
    ensures c.Valid()
    ensures r == SniOf(old(c.Unread())) || (c.conn.failed && r.Err? && (r.error.NoHeader? || r.error.NoBody?))
    ensures r.Ok? ==> !c.capture && c.Unread() == old(c.Unread())
    ensures r.Err? && (r.error.BadHello? || r.error.NoServerName?) ==> c.Unread() == old(c.Unread())
  {
    hide ServerName, RecordOf;
    NoNameErrors(c.Unread());
    var body := ReadRecord(c);
    if body.Err? {
      return Err(body.error);
    }
    c.ResetReplay();
    var name := ParseClientHello(body.value);
    match name {
      case Err(e) => return Err(BadHello(e));
      case Ok(host) =>
        if host == [] {
          return Err(NoServerName);
        }
        return Ok(host);
    }
  }

  lemma NoNameErrors(stream: Bytes)
    ensures RecordOf(stream).Err? ==> !RecordOf(stream).error.BadHello? && !RecordOf(stream).error.NoServerName?
  {
  }

  // ---------------------------------------------------------------------------------------------
  // Passing a connection through to its backend

  /** A backend's connection: it takes `room` more bytes, then fails. */
  class Backend {
    var received: Bytes
    var room: nat

    constructor (room: nat)
      ensures received == [] && this.room == room
    {
      received, this.room := [], room;
    }

    method Write(data: Bytes) returns (n: nat)
      modifies this
      ensures n == Least(old(room), |data|) && room == old(room) - n
      ensures received == old(received) + data[..n]
    {
      n := Least(room, |data|);
      received := received + data[..n];
      room := room - n;
    }
  }

  lemma Written(sent: Bytes, left: Bytes, chunk: Bytes, written: nat, rest: Bytes)
    requires written <= |chunk| && left == chunk + rest
    ensures sent + left == sent + chunk[..written] + chunk[written..] + rest
  {
    assert chunk == chunk[..written] + chunk[written..];
  }

  /** The copy from the client to the backend. It ends when the backend takes no more, having got as
      much of the stream as it had room for, or when a read fails, with everything read delivered
      and nothing left to replay. */
  method Copy(c: PeekConn, backend: Backend) returns (lost: Bytes)
    requires c.Valid()
    modifies c, c.conn, backend
    ensures c.Valid()
    ensures old(backend.received) + old(c.Unread()) == backend.received + lost + c.Unread()
    ensures lost == [] ==> c.conn.failed && c.buf == []
    ensures lost != [] ==>
              |old(c.Unread())| > old(backend.room)
              && backend.received == old(backend.received) + old(c.Unread())[..old(backend.room)]
  {
    lost := [];
    ghost var all := backend.received + c.Unread();
    var buffer := new Byte[32768];
    var done := false;
    while !done
      invariant c.Valid()
      invariant all == backend.received + lost + c.Unread()
      invariant old(|backend.received|) <= |backend.received|
      invariant |backend.received| + backend.room == old(|backend.received|) + old(backend.room)
      invariant lost != [] ==> done && backend.room == 0
      invariant done && lost == [] ==> c.conn.failed && c.buf == []
      decreases c.Work(), !done
    {
      ghost var sent, left := backend.received, c.Unread();
      var n, err := c.Read(buffer, 0);
      var written := backend.Write(buffer[..n]);
      lost := buffer[written..n];
      Written(sent, left, buffer[..n], written, c.Unread());
      done := err || written < n;
    }
    FullBackend(old(backend.received), old(c.Unread()), backend.received, lost, c.Unread());
  }

  lemma FullBackend(before: Bytes, stream: Bytes, after: Bytes, lost: Bytes, rest: Bytes)
    requires before + stream == after + lost + rest && |before| <= |after|
    ensures after == before + stream[..|after| - |before|] && |stream| == |after| - |before| + |lost| + |rest|
  {
    var all := before + stream;
    assert after == all[..|after|];
    assert all[..|after|] == before + stream[..|after| - |before|];
  }

  /** A connection with a passthrough policy: its backend receives the client's own stream from its
      first byte - all that was read before a read failed, or all it has room for. */
  method Passthrough(conn: Conn, backend: Backend) returns (r: Result<Bytes, SniError>, lost: Bytes)
    modifies conn, backend
    ensures r.Err? ==> backend.received == old(backend.received) && lost == []
    ensures r.Ok? ==> r == SniOf(old(conn.pending))
    ensures r.Ok? && lost == [] ==>
              conn.failed && old(backend.received) + old(conn.pending) == backend.received + conn.pending
    ensures r.Ok? && lost != [] ==>
              |old(conn.pending)| > old(backend.room)
              && backend.received == old(backend.received) + old(conn.pending)[..old(backend.room)]
  {
    hide SniOf;
    lost := [];
    var c := new PeekConn(conn);
    r := ReadSni(c);
    if r.Ok? {
      lost := Copy(c, backend);
    }
  }

  // ---------------------------------------------------------------------------------------------
  // Well-formed clients

  lemma RecordIsRead(version: Bytes, body: Bytes, rest: Bytes)
    requires |version| == 2 && 0 < |body| < 65536
    ensures RecordOf(EncodeRecord(version, body) + rest) == Ok(body)
  {
    var stream := EncodeRecord(version, body) + rest;
    assert stream[3] == |body| / 256 && stream[4] == |body| % 256;
    assert stream[5..5 + |body|] == body;
  }

  /** Every client that opens with a well-formed ClientHello in one record is routed by the host
      name it asked for, whatever it sends next. */
  lemma WellFormedClientsAreRouted(version: Bytes, h: ClientHello, after: Bytes, stream: Bytes)
    requires |version| == 2 && WellFormed(h) && |EncodeHandshake(h)| + |after| < 65536
    ensures SniOf(EncodeRecord(version, EncodeHandshake(h) + after) + stream)
         == if Requested(h.extensions) == [] then Err(NoServerName) else Ok(Requested(h.extensions))
  {
    hide ServerName, WellFormed, EncodeHandshake, EncodeRecord, RecordOf, Requested;
    WellFormedIsRead(h, after);
    RecordIsRead(version, EncodeHandshake(h) + after, stream);
  }

  /** The stream opens with a handshake record that holds the encoding of a tree. */
  predicate OpensWith(stream: Bytes, version: Bytes, h: Hello, rest: Bytes) {
    && |version| == 2 && Fit(h) && |Encode(h)| < 65536
    && stream == EncodeRecord(version, Encode(h)) + rest
  }

  /** A client is routed by a name exactly when its stream opens with a handshake record whose content
      is a ClientHello, as the parser's grammar has it, that carries the name. */
  lemma RoutedIffHello(stream: Bytes, name: Bytes)
    ensures SniOf(stream) == Ok(name)
       <==> name != [] && exists version, h: Hello, rest :: OpensWith(stream, version, h, rest) && NameIn(h) == name
  {
    hide ServerName, Fit, Encode, EncodeRecord, NameIn, RecordOf;
    if SniOf(stream) == Ok(name) {
      var version, body, rest := RecordRead(stream);
      var h := ReadIsEncoded(body);
      EncodedIsRead(h);
      assert OpensWith(stream, version, h, rest);
    }
    forall version, h: Hello, rest | OpensWith(stream, version, h, rest) && NameIn(h) == name && name != []
      ensures SniOf(stream) == Ok(name)
    {
      EncodeNotEmpty(h);
      EncodedIsRead(h);
      RecordIsRead(version, Encode(h), rest);
    }
  }

  lemma RecordRead(stream: Bytes) returns (version: Bytes, body: Bytes, rest: Bytes)
    requires RecordOf(stream).Ok?
    ensures RecordOf(stream) == Ok(body) && |version| == 2 && |body| < 65536
    ensures stream == EncodeRecord(version, body) + rest
  {
    var n := U16(stream[3], stream[4]);
    version, body, rest := stream[1..3], stream[5..5 + n], stream[5 + n..];
    assert n / 256 == stream[3] && n % 256 == stream[4];
    assert EncodeRecord(version, body) == stream[..5 + n];
  }

  lemma EncodeNotEmpty(h: Hello)
    requires Fit(h)
    ensures Encode(h) != []
  {
    hide Fit;
  }
}
