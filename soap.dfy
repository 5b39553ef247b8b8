/** The SOAP versions an AS4 message may use, and the parts of a received
    SOAP document the receiver looks at. */
module Soap {
  import opened Common

  datatype SoapVersion = Soap11 | Soap12

  /** Envelope namespace (SOAP 1.1 section 4; SOAP 1.2 Part 1 section 5). */
  function NamespaceUri(v: SoapVersion): string
  {
    match v
    case Soap11 => "http://schemas.xmlsoap.org/soap/envelope/"
    case Soap12 => "http://www.w3.org/2003/05/soap-envelope"
  }

  /** Media type without parameters. */
  function MimeType(v: SoapVersion): string
  {
    match v
    case Soap11 => "text/xml"
    case Soap12 => "application/soap+xml"
  }

  /** The lexical form of mustUnderstand="true" (SOAP 1.1 section 4.2.3 uses
      "1", SOAP 1.2 Part 1 section 5.2.3 uses "true"). */
  function MustUnderstandTrue(v: SoapVersion): string
  {
    match v
    case Soap11 => "1"
    case Soap12 => "true"
  }

  datatype QName = QName(namespaceUri: string, localName: string)

  /** A child element of the SOAP Header: its name and the value of its
      mustUnderstand attribute in the envelope namespace ("" when absent,
      as DOM's getAttributeNS returns). */
  datatype HeaderElement = HeaderElement(qname: QName, mustUnderstandAttribute: string)

  /** The SOAP Body; `firstChild` is the payload node, if any. */
  datatype Body = Body(firstChild: Option<string>)

  /** A parsed SOAP document, reduced to what the receiver inspects: the
      namespace of its root, and its first Header and Body children, which
      share the root's namespace. */
  datatype SoapDocument = SoapDocument(namespaceUri: string,
                                       header: Option<seq<HeaderElement>>,
                                       body: Option<Body>)

  /** The children of the first Header element in the version's envelope
      namespace, if there is one. */
  function HeaderOf(doc: SoapDocument, v: SoapVersion): (r: Option<seq<HeaderElement>>)
    ensures r.Some? <==> doc.namespaceUri == NamespaceUri(v) && doc.header.Some?
    ensures r.Some? ==> r == doc.header
  {
    if doc.namespaceUri == NamespaceUri(v) then doc.header else None
  }

  /** The first Body element in the version's envelope namespace. */
  function BodyOf(doc: SoapDocument, v: SoapVersion): (r: Option<Body>)
    ensures r.Some? <==> doc.namespaceUri == NamespaceUri(v) && doc.body.Some?
    ensures r.Some? ==> r == doc.body
  {
    if doc.namespaceUri == NamespaceUri(v) then doc.body else None
  }

  /** The first version, in declaration order, whose media type is `mt`. */
  function VersionForMimeType(mt: string): (r: Option<SoapVersion>)
    ensures r.Some? ==> MimeType(r.value) == mt
    ensures r.None? ==> forall v: SoapVersion :: MimeType(v) != mt
  {
    if mt == MimeType(Soap11) then Some(Soap11)
    else if mt == MimeType(Soap12) then Some(Soap12)
    else None
  }

  /** The first version, in declaration order, whose envelope namespace is
      `ns`. */
  function VersionForNamespace(ns: string): (r: Option<SoapVersion>)
    ensures r.Some? ==> NamespaceUri(r.value) == ns
    ensures r.None? ==> forall v: SoapVersion :: NamespaceUri(v) != ns
  {
    if ns == NamespaceUri(Soap11) then Some(Soap11)
    else if ns == NamespaceUri(Soap12) then Some(Soap12)
    else None
  }

  /** Media type and namespace each identify the version. */
  lemma VersionLookupsInvertNames(v: SoapVersion)
    ensures VersionForMimeType(MimeType(v)) == Some(v)
    ensures VersionForNamespace(NamespaceUri(v)) == Some(v)
  {
    match v
    case Soap11 =>
    case Soap12 =>
      assert MimeType(Soap12)[0] != MimeType(Soap11)[0];
      assert NamespaceUri(Soap12)[7] != NamespaceUri(Soap11)[7];
  }
}
