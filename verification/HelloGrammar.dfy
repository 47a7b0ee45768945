/** What the parser accepts: exactly the encodings of these trees, which are laxer than the
    standard's. Lengths the parser only bounds are free, as are the bytes it never looks at. */
module HelloGrammar {
  import opened Events
  import opened ClientHellos

  type Word = n: nat | n < 65536

  type Bytes8 = b: Bytes | |b| < 256

  type Bytes16 = b: Bytes | |b| < 65536

  datatype Name = Name(kind: Byte, text: Bytes16)

  type OtherName = n: Name | n.kind != HOST_NAME witness Name(1, [])

  /** `others` precede the first host name; `rest` follows it, or is too short to hold a name. */
  datatype NameList = NameList(declared: Word, others: seq<OtherName>, host: Option<Bytes16>, rest: Bytes)

  datatype Extension = Extension(kind: Word, data: Bytes16)

  type OtherExtension = e: Extension | e.kind != SERVER_NAME witness Extension(1, [])

  /** `others` precede the first server_name extension; `rest` follows it, or is too short to hold
      an extension. */
  datatype Block = Block(others: seq<OtherExtension>, names: Option<NameList>, rest: Bytes)

  datatype Hello = Hello(declared: nat, opening: Bytes, session: Bytes8, ciphers: Bytes16, compression: Bytes8,
                         block: Block, trailer: Bytes)

  // ---------------------------------------------------------------------------------------------
  // The encoder

  function Encode8(b: Bytes8): Bytes {
    [|b|] + b
  }

  function Encode16(b: Bytes16): Bytes {
    Num16(|b|) + b
  }

  function EncodeName(name: Name): Bytes {
    [name.kind] + Encode16(name.text)
  }

  function EncodeNames(names: seq<Name>): Bytes {
    if names == [] then [] else EncodeName(names[0]) + EncodeNames(names[1..])
  }

  function EncodeHost(host: Option<Bytes16>, rest: Bytes): Bytes {
    match host
    case None => rest
    case Some(text) => EncodeName(Name(HOST_NAME, text)) + rest
  }

  function EncodeNameList(list: NameList): Bytes {
    Num16(list.declared) + (EncodeNames(list.others) + EncodeHost(list.host, list.rest))
  }

  predicate FitNameList(list: NameList) {
    && (list.host.None? ==> |list.rest| < 3)
    && list.declared + 2 <= |EncodeNameList(list)| < 65536
  }

  function EncodeExtension(e: Extension): Bytes {
    Num16(e.kind) + Encode16(e.data)
  }

  function EncodeExtensions(es: seq<Extension>): Bytes {
    if es == [] then [] else EncodeExtension(es[0]) + EncodeExtensions(es[1..])
  }

  predicate FitNames(b: Block) {
    if b.names.Some? then FitNameList(b.names.value) else |b.rest| < 4
  }

  predicate FitBlock(b: Block) {
    FitNames(b) && |EncodeBlock(b)| < 65536
  }

  function EncodeBlock(b: Block): Bytes
    requires FitNames(b)
  {
    EncodeExtensions(b.others) +
    (match b.names
     case None => b.rest
     case Some(list) => EncodeExtension(Extension(SERVER_NAME, EncodeNameList(list))) + b.rest)
  }

  predicate Fit(h: Hello) {
    && |h.opening| == 34 && FitBlock(h.block)
    && h.declared < 0x100_0000 && h.declared <= |EncodeFields(h)|
  }

  /** The fields of a ClientHello, from its version to the end of the record. */
  function Fields(opening: Bytes, session: Bytes8, ciphers: Bytes16, compression: Bytes8, block: Bytes16,
                  trailer: Bytes): Bytes
  {
    opening + (Encode8(session) + (Encode16(ciphers) + (Encode8(compression) + (Encode16(block) + trailer))))
  }

  function EncodeFields(h: Hello): Bytes
    requires FitBlock(h.block)
  {
    Fields(h.opening, h.session, h.ciphers, h.compression, EncodeBlock(h.block), h.trailer)
  }

  function Encode(h: Hello): Bytes
    requires Fit(h)
  {
    [CLIENT_HELLO] + Num24(h.declared) + EncodeFields(h)
  }

  /** The name a tree carries: its first host name, in its first server_name extension. */
  function NameIn(h: Hello): Bytes {
    match h.block.names
    case None => []
    case Some(list) => (match list.host case None => [] case Some(host) => host)
  }

  // ---------------------------------------------------------------------------------------------
  // Every tree's encoding is read as the tree says

  lemma Vector8Encoded(b: Bytes8, rest: Bytes)
    ensures Vector8(Encode8(b) + rest) == Cut(b, rest)
  {
    var all := Encode8(b) + rest;
    assert all[1..1 + |b|] == b && all[1 + |b|..] == rest;
  }

  lemma Vector16Encoded(b: Bytes16, rest: Bytes)
    ensures Vector16(Encode16(b) + rest) == Cut(b, rest)
  {
    var all := Encode16(b) + rest;
    assert all[..2] == Num16(|b|);
    assert all[0] == Num16(|b|)[0] && all[1] == Num16(|b|)[1];
    assert all[2..2 + |b|] == b && all[2 + |b|..] == rest;
  }

  lemma NameEncoded(name: Name, rest: Bytes)
    ensures HostNameIn(EncodeName(name) + rest) == if name.kind == HOST_NAME then Ok(name.text) else HostNameIn(rest)
  {
    var all := EncodeName(name) + rest;
    assert all[0] == name.kind && all[1] == Num16(|name.text|)[0] && all[2] == Num16(|name.text|)[1];
    assert all[3..3 + |name.text|] == name.text && all[3 + |name.text|..] == rest;
  }

  lemma Reassociated(a: Bytes, b: Bytes, c: Bytes)
    ensures a + b + c == a + (b + c)
  {
  }

  lemma {:induction false} NamesEncoded(names: seq<OtherName>, rest: Bytes)
    ensures HostNameIn(EncodeNames(names) + rest) == HostNameIn(rest)
  {
    hide HostNameIn, EncodeName;
    if names == [] {
      assert EncodeNames(names) + rest == rest;
    } else {
      NameEncoded(names[0], EncodeNames(names[1..]) + rest);
      NamesEncoded(names[1..], rest);
      Reassociated(EncodeName(names[0]), EncodeNames(names[1..]), rest);
    }
  }

  lemma NameListEncoded(list: NameList)
    requires FitNameList(list)
    ensures HostNameOf(EncodeNameList(list)) == Ok(match list.host case None => [] case Some(host) => host)
  {
    hide HostNameIn;
    var all := EncodeNameList(list);
    assert all[..2] == Num16(list.declared);
    assert all[0] == Num16(list.declared)[0] && all[1] == Num16(list.declared)[1];
    assert all[2..] == EncodeNames(list.others) + EncodeHost(list.host, list.rest);
    NamesEncoded(list.others, EncodeHost(list.host, list.rest));
    HostEncoded(list);
  }

  lemma HostEncoded(list: NameList)
    requires list.host.None? ==> |list.rest| < 3
    ensures HostNameIn(EncodeHost(list.host, list.rest)) == Ok(match list.host case None => [] case Some(host) => host)
  {
    if list.host.Some? {
      NameEncoded(Name(HOST_NAME, list.host.value), list.rest);
    }
  }

  lemma ExtensionEncoded(e: Extension, rest: Bytes)
    ensures ServerNameIn(EncodeExtension(e) + rest) ==
            if e.kind == SERVER_NAME then HostNameOf(e.data) else ServerNameIn(rest)
  {
    hide HostNameOf;
    var all := EncodeExtension(e) + rest;
    assert all[0] == Num16(e.kind)[0] && all[1] == Num16(e.kind)[1];
    assert all[2] == Num16(|e.data|)[0] && all[3] == Num16(|e.data|)[1];
    assert all[4..4 + |e.data|] == e.data && all[4 + |e.data|..] == rest;
  }

  lemma {:induction false} ExtensionsEncoded(es: seq<OtherExtension>, rest: Bytes)
    ensures ServerNameIn(EncodeExtensions(es) + rest) == ServerNameIn(rest)
  {
    hide ServerNameIn, HostNameOf, EncodeExtension;
    if es == [] {
      assert EncodeExtensions(es) + rest == rest;
    } else {
      ExtensionEncoded(es[0], EncodeExtensions(es[1..]) + rest);
      ExtensionsEncoded(es[1..], rest);
      Reassociated(EncodeExtension(es[0]), EncodeExtensions(es[1..]), rest);
    }
  }

  lemma BlockEncoded(b: Block)
    requires FitBlock(b)
    ensures ServerNameIn(EncodeBlock(b)) == Ok(match b.names
                                               case None => []
                                               case Some(list) => (match list.host case None => [] case Some(h) => h))
  {
    hide ServerNameIn, HostNameOf, EncodeNameList, EncodeExtensions, EncodeExtension;
    match b.names {
      case None =>
        ExtensionsEncoded(b.others, b.rest);
        ShortBlock(b.rest);
      case Some(list) =>
        var e := Extension(SERVER_NAME, EncodeNameList(list));
        ExtensionsEncoded(b.others, EncodeExtension(e) + b.rest);
        ExtensionEncoded(e, b.rest);
        NameListEncoded(list);
    }
  }

  lemma ShortBlock(rest: Bytes)
    requires |rest| < 4
    ensures ServerNameIn(rest) == Ok([])
  {
  }

  lemma FieldsRead(opening: Bytes, session: Bytes8, ciphers: Bytes16, compression: Bytes8, block: Bytes16,
                   trailer: Bytes)
    requires |opening| == 34
    ensures var all := Fields(opening, session, ciphers, compression, block, trailer);
            |all| >= 34 && AfterRandom(all[34..]) == ServerNameIn(block)
  {
    hide ServerNameIn, Vector8, Vector16, Encode8, Encode16;
    var fromBlock := Encode16(block) + trailer;
    var fromCompression := Encode8(compression) + fromBlock;
    var fromCiphers := Encode16(ciphers) + fromCompression;
    var fromSession := Encode8(session) + fromCiphers;
    assert Fields(opening, session, ciphers, compression, block, trailer)[34..] == fromSession;
    Vector8Encoded(session, fromCiphers);
    Vector16Encoded(ciphers, fromCompression);
    Vector8Encoded(compression, fromBlock);
    Vector16Encoded(block, trailer);
  }

  lemma FieldsEncoded(h: Hello)
    requires Fit(h)
    ensures |EncodeFields(h)| >= 34 && AfterRandom(EncodeFields(h)[34..]) == Ok(NameIn(h))
  {
    hide ServerNameIn, EncodeBlock, FitNames, Fields, AfterRandom;
    FieldsRead(h.opening, h.session, h.ciphers, h.compression, EncodeBlock(h.block), h.trailer);
    BlockEncoded(h.block);
  }

  lemma HandshakeRead(length: nat, fields: Bytes)
    requires length < 0x100_0000 && |fields| >= 34
    ensures ServerName([CLIENT_HELLO] + Num24(length) + fields) ==
            if length > |fields| then Err(TruncatedHello) else AfterRandom(fields[34..])
  {
    hide AfterRandom;
    var all := [CLIENT_HELLO] + Num24(length) + fields;
    assert all[1..4] == Num24(length);
    assert all[1] == Num24(length)[0] && all[2] == Num24(length)[1] && all[3] == Num24(length)[2];
    assert all[38..] == fields[34..];
  }

  /** The parser inverts the encoder. */
  lemma EncodedIsRead(h: Hello)
    requires Fit(h)
    ensures ServerName(Encode(h)) == Ok(NameIn(h))
  {
    hide AfterRandom, ServerName, FitNames, EncodeBlock, EncodeFields, NameIn;
    FieldsEncoded(h);
    HandshakeRead(h.declared, EncodeFields(h));
  }

  // ---------------------------------------------------------------------------------------------
  // Whatever is read is the encoding of a tree

  lemma NumsRead(hi: Byte, lo: Byte)
    ensures U16(hi, lo) < 65536 && Num16(U16(hi, lo)) == [hi, lo]
  {
  }

  lemma Cut8(b: Bytes)
    requires Vector8(b).Cut?
    ensures |Vector8(b).head| < 256 && b == Encode8(Vector8(b).head) + Vector8(b).rest
  {
  }

  lemma Cut16(b: Bytes)
    requires Vector16(b).Cut?
    ensures |Vector16(b).head| < 65536 && b == Encode16(Vector16(b).head) + Vector16(b).rest
  {
    NumsRead(b[0], b[1]);
  }

  lemma {:induction false} NamesRead(names: Bytes)
    returns (others: seq<OtherName>, host: Option<Bytes16>, rest: Bytes)
    requires HostNameIn(names).Ok?
    ensures host.None? ==> |rest| < 3 && HostNameIn(names) == Ok([])
    ensures host.Some? ==> HostNameIn(names) == Ok(host.value)
    ensures names == EncodeNames(others) + EncodeHost(host, rest)
    decreases |names|
  {
    hide HostNameIn, EncodeName, EncodeNames, EncodeHost;
    NoNames(names);
    if |names| < 3 {
      others, host, rest := [], None, names;
      return;
    }
    var name, after := FirstName(names);
    if name.kind == HOST_NAME {
      others, host, rest := [], Some(name.text), after;
      HostFirst(name.text, after);
    } else {
      others, host, rest := NamesRead(after);
      NamesJoin(name, others, EncodeHost(host, rest));
      others := [name] + others;
    }
  }

  lemma FirstName(names: Bytes) returns (name: Name, after: Bytes)
    requires |names| >= 3 && HostNameIn(names).Ok?
    ensures names == EncodeName(name) + after && |after| < |names|
    ensures HostNameIn(names) == if name.kind == HOST_NAME then Ok(name.text) else HostNameIn(after)
  {
    Cut16(names[1..]);
    name, after := Name(names[0], Vector16(names[1..]).head), Vector16(names[1..]).rest;
    assert names == EncodeName(name) + after;
    NameEncoded(name, after);
  }

  lemma NoNames(names: Bytes)
    ensures |names| < 3 ==> HostNameIn(names) == Ok([])
    ensures EncodeNames([]) + EncodeHost(None, names) == names
  {
  }

  lemma HostFirst(text: Bytes16, after: Bytes)
    ensures EncodeNames([]) + EncodeHost(Some(text), after) == EncodeName(Name(HOST_NAME, text)) + after
  {
  }

  lemma NamesJoin(name: OtherName, others: seq<OtherName>, after: Bytes)
    ensures EncodeNames([name] + others) + after == EncodeName(name) + (EncodeNames(others) + after)
  {
    assert ([name] + others)[1..] == others;
  }

  lemma NameListRead(ext: Bytes) returns (list: NameList)
    requires |ext| < 65536 && HostNameOf(ext).Ok?
    ensures FitNameList(list) && EncodeNameList(list) == ext
    ensures HostNameOf(ext) == Ok(match list.host case None => [] case Some(host) => host)
  {
    hide HostNameIn, EncodeNames, EncodeHost;
    NumsRead(ext[0], ext[1]);
    var others, host, rest := NamesRead(ext[2..]);
    list := NameList(U16(ext[0], ext[1]), others, host, rest);
    assert ext == ext[..2] + ext[2..];
  }

  lemma {:induction false} BlockRead(block: Bytes) returns (b: Block)
    requires |block| < 65536 && ServerNameIn(block).Ok?
    ensures FitBlock(b) && EncodeBlock(b) == block
    decreases |block|
  {
    hide ServerNameIn, HostNameOf, EncodeExtension, EncodeNameList;
    if |block| < 4 {
      return Block([], None, block);
    }
    var e, after := FirstExtension(block);
    if e.kind == SERVER_NAME {
      var list := NameListRead(e.data);
      b := Block([], Some(list), after);
    } else {
      var b' := BlockRead(after);
      b := b'.(others := [e] + b'.others);
      BlockJoin(e, b');
    }
  }

  lemma FirstExtension(block: Bytes) returns (e: Extension, after: Bytes)
    requires |block| >= 4 && ServerNameIn(block).Ok?
    ensures block == EncodeExtension(e) + after && |after| < |block|
    ensures ServerNameIn(block) == if e.kind == SERVER_NAME then HostNameOf(e.data) else ServerNameIn(after)
  {
    hide HostNameOf;
    Cut16(block[2..]);
    NumsRead(block[0], block[1]);
    e, after := Extension(U16(block[0], block[1]), Vector16(block[2..]).head), Vector16(block[2..]).rest;
    assert block == EncodeExtension(e) + after;
    ExtensionEncoded(e, after);
  }

  lemma BlockJoin(e: OtherExtension, b: Block)
    requires FitNames(b)
    ensures EncodeBlock(b.(others := [e] + b.others)) == EncodeExtension(e) + EncodeBlock(b)
  {
    hide FitNameList, EncodeNameList, EncodeExtension;
    assert ([e] + b.others)[1..] == b.others;
  }

  lemma ReadIsEncoded(body: Bytes) returns (h: Hello)
    requires ServerName(body).Ok?
    ensures Fit(h) && Encode(h) == body
  {
    hide ServerNameIn, FitNames, EncodeBlock, Vector8, Vector16, Encode8, Encode16;
    var left := body[38..];
    var session := Vector8(left);
    Cut8(left);
    var ciphers := Vector16(session.rest);
    Cut16(session.rest);
    var compression := Vector8(ciphers.rest);
    Cut8(ciphers.rest);
    var block := Vector16(compression.rest);
    Cut16(compression.rest);
    var b := BlockRead(block.head);
    h := Hello(U24(body[1], body[2], body[3]), body[4..38], session.head, ciphers.head, compression.head, b,
               block.rest);
    assert EncodeFields(h) == body[4..38] + left;
    assert body[4..] == body[4..38] + left;
    NumRead(body[1], body[2], body[3]);
    assert body == [CLIENT_HELLO] + body[1..4] + body[4..];
  }

  lemma NumRead(hi: Byte, mid: Byte, lo: Byte)
    ensures U24(hi, mid, lo) < 0x100_0000 && Num24(U24(hi, mid, lo)) == [hi, mid, lo]
  {
    assert U24(hi, mid, lo) / 256 == hi * 256 + mid;
  }

  /** The parser accepts exactly the encodings of trees, and answers with the name the tree carries. */
  lemma ServerNameIffEncoded(body: Bytes, name: Bytes)
    ensures ServerName(body) == Ok(name) <==> exists h: Hello :: Fit(h) && Encode(h) == body && NameIn(h) == name
  {
    hide ServerName, Fit, Encode, NameIn;
    if ServerName(body).Ok? {
      var h := ReadIsEncoded(body);
      EncodedIsRead(h);
      assert Fit(h) && Encode(h) == body && ServerName(body) == Ok(NameIn(h));
    }
    forall h: Hello | Fit(h) && Encode(h) == body ensures ServerName(body) == Ok(NameIn(h)) {
      EncodedIsRead(h);
    }
  }
}
