/** The parser reads every ClientHello that the standards describe. */
module WellFormedHellos {
  import opened Events
  import opened ClientHellos
  import opened HelloGrammar
  import opened TlsStandard

  lemma {:induction false} FirstHostRead(names: seq<ServerNameEntry>)
    requires WellFormedNames(names)
    ensures HostNameIn(EncodeServerNames(names)) == Ok(FirstHost(names))
  {
    if names != [] {
      hide HostNameIn;
      NameEncoded(Name(names[0].nameType, names[0].name), EncodeServerNames(names[1..]));
      FirstHostRead(names[1..]);
    }
  }

  lemma ServerNamesRead(names: seq<ServerNameEntry>)
    requires WellFormedExtension(ServerNames(names))
    ensures HostNameOf(Opaque16(EncodeServerNames(names))) == Ok(FirstHost(names))
  {
    hide HostNameIn, EncodeServerNames, FirstHost;
    FirstHostRead(names);
    assert Opaque16(EncodeServerNames(names))[2..] == EncodeServerNames(names);
  }

  lemma {:induction false} RequestedRead(es: seq<TlsExtension>)
    requires WellFormedExtensions(es)
    ensures ServerNameIn(EncodeTlsExtensions(es)) == Ok(Requested(es))
  {
    if es != [] {
      hide ServerNameIn, HostNameOf, EncodeServerNames, EncodeExtension, EncodeTlsExtension, FirstHost;
      assert WellFormedExtension(es[0]);
      ExtensionRead(es[0], EncodeTlsExtensions(es[1..]));
      if es[0].Other? {
        RequestedRead(es[1..]);
      }
    }
  }

  lemma ExtensionRead(e: TlsExtension, rest: Bytes)
    requires WellFormedExtension(e)
    ensures ServerNameIn(EncodeTlsExtension(e) + rest) ==
            match e
            case ServerNames(names) => Ok(FirstHost(names))
            case Other(_, _) => ServerNameIn(rest)
  {
    hide ServerNameIn, HostNameOf, EncodeServerNames, FirstHost;
    match e {
      case Other(extensionType, data) =>
        ExtensionEncoded(Extension(extensionType, data), rest);
      case ServerNames(names) =>
        ExtensionEncoded(Extension(0, Opaque16(EncodeServerNames(names))), rest);
        ServerNamesRead(names);
    }
  }

  lemma FieldsAre(h: ClientHello, after: Bytes)
    requires WellFormed(h)
    ensures EncodeClientHello(h) + after == Fields(h.version + h.random, h.session, h.ciphers, h.compression,
                                                   EncodeTlsExtensions(h.extensions), after)
  {
    hide EncodeTlsExtensions, WellFormedExtensions;
    var bytes := EncodeClientHello(h) + after;
    assert bytes == Fields(h.version + h.random, h.session, h.ciphers, h.compression,
                           EncodeTlsExtensions(h.extensions), after);
  }

  /** Every well-formed ClientHello in one record is read, whatever follows it in the record. */
  lemma WellFormedIsRead(h: ClientHello, after: Bytes)
    requires WellFormed(h)
    ensures ServerName(EncodeHandshake(h) + after) == Ok(Requested(h.extensions))
  {
    hide ServerName, ServerNameIn, AfterRandom, EncodeTlsExtensions, Requested, WellFormedExtensions, Fields;
    var hello := EncodeClientHello(h);
    FieldsAre(h, after);
    assert EncodeHandshake(h) + after == [1] + Num24(|hello|) + (hello + after);
    FieldsRead(h.version + h.random, h.session, h.ciphers, h.compression, EncodeTlsExtensions(h.extensions), after);
    HandshakeRead(|hello|, hello + after);
    RequestedRead(h.extensions);
  }

  /** A ClientHello that is split over several records is refused. */
  lemma FragmentRefused(h: ClientHello, k: nat)
    requires WellFormed(h) && k < |EncodeHandshake(h)|
    ensures ServerName(EncodeHandshake(h)[..k]) == Err(if k < 4 then NotClientHello else TruncatedHello)
  {
    hide AfterRandom, EncodeClientHello, WellFormed;
    var n := |EncodeClientHello(h)|;
    assert U24(n / 65536, n / 256 % 256, n % 256) == n;
  }
}
