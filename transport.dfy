/** The transport decisions of `handleRequest`: which requests are refused
    before a SOAP document exists, and how the SOAP version is chosen. */
module Transport {
  import opened Common
  import opened Soap

  const MULTIPART_RELATED: string := "multipart/related"

  /** A parsed Content-Type: the media type without parameters, and the
      boundary parameter. */
  datatype ContentType = ContentType(plain: string, boundary: Option<string>)

  /** The first MIME part of a multipart request: its Content-Type as
      parsed, `None` when it does not parse. */
  datatype FirstPart = FirstPart(plainContentType: Option<string>)

  /** What the request carries, as the foreign parsers report it: the raw
      Content-Type header, its parse, the first MIME part when the request
      has one, and the SOAP document the XML reader produced from the
      relevant stream (`None` when reading failed). */
  datatype Request = Request(
    contentTypeHeader: Option<string>,
    parsedContentType: Option<ContentType>,
    firstPart: Option<FirstPart>,
    document: Option<SoapDocument>)

  datatype RejectReason =
    | ContentTypeMissing
    | ContentTypeUnparsable
    | MessageUnparsable                        // "Failed to parse incoming message!"
    | SoapDocumentUnparsable(version: SoapVersion)
    | SoapVersionUnknown

  datatype Classification = Reject(reason: RejectReason) | Dispatch(document: SoapDocument, version: SoapVersion)

  /** The document and the version as far as the framing determines them.
      A multipart request without boundary reads no document; one with a
      boundary takes the version from its first part; a plain request takes
      it from the outer Content-Type. A first part whose type does not parse
      is a null dereference. */
  function Framing(ct: ContentType, req: Request): Eval<(Option<SoapDocument>, Option<SoapVersion>)>
  {
    if ct.plain == MULTIPART_RELATED then
      if !HasText(ct.boundary) then Returned((None, None))
      else match req.firstPart
        case None => Returned((None, None))
        case Some(part) =>
          if part.plainContentType.None? then Threw
          else Returned((req.document, VersionForMimeType(part.plainContentType.value)))
    else Returned((req.document, VersionForMimeType(ct.plain)))
  }

  /** `handleRequest` up to `_handleSOAPMessage`: a missing or unparsable
      Content-Type is refused; without a document the reason names the
      version if one is known; otherwise the version from the framing, else
      from the document's namespace, else the request is refused. A missing
      boundary is reported, but the later "no document" verdict replaces
      it. */
  function Classify(req: Request): (r: Eval<Classification>)
    ensures !HasText(req.contentTypeHeader) ==> r == Returned(Reject(ContentTypeMissing))
    ensures HasText(req.contentTypeHeader) && req.parsedContentType.None? ==> r == Returned(Reject(ContentTypeUnparsable))
    ensures r.Threw? <==>
              HasText(req.contentTypeHeader) && req.parsedContentType.Some?
              && req.parsedContentType.value.plain == MULTIPART_RELATED && HasText(req.parsedContentType.value.boundary)
              && req.firstPart.Some? && req.firstPart.value.plainContentType.None?
    ensures r.Returned? && r.value.Dispatch? ==>
              && HasText(req.contentTypeHeader) && req.parsedContentType.Some?
              && req.document == Some(r.value.document)
              && var framed := Framing(req.parsedContentType.value, req).value.1;
                 if framed.Some? then r.value.version == framed.value
                 else VersionForNamespace(r.value.document.namespaceUri) == Some(r.value.version)
    ensures HasText(req.contentTypeHeader) && req.parsedContentType.Some?
            && Framing(req.parsedContentType.value, req).Returned? ==>
              var doc := Framing(req.parsedContentType.value, req).value.0;
              var framed := Framing(req.parsedContentType.value, req).value.1;
              && (doc.None? ==>
                    r == Returned(Reject(if framed.None? then MessageUnparsable else SoapDocumentUnparsable(framed.value))))
              && (doc.Some? ==>
                    (r.value.Dispatch? <==> framed.Some? || VersionForNamespace(doc.value.namespaceUri).Some?))
  {
    if !HasText(req.contentTypeHeader) then Returned(Reject(ContentTypeMissing))
    else if req.parsedContentType.None? then Returned(Reject(ContentTypeUnparsable))
    else match Framing(req.parsedContentType.value, req)
      case Threw => Threw
      case Returned((doc, version)) =>
        if doc.None? then
          Returned(Reject(if version.None? then MessageUnparsable else SoapDocumentUnparsable(version.value)))
        else
          var v := if version.Some? then version else VersionForNamespace(doc.value.namespaceUri);
          if v.None? then Returned(Reject(SoapVersionUnknown)) else Returned(Dispatch(doc.value, v.value))
  }

  /** A multipart request without boundary never reaches the SOAP handler
      and ends with the generic parse failure. */
  lemma MissingBoundaryIsUnparsable(req: Request)
    requires HasText(req.contentTypeHeader) && req.parsedContentType.Some?
    requires req.parsedContentType.value.plain == MULTIPART_RELATED && !HasText(req.parsedContentType.value.boundary)
    ensures Classify(req) == Returned(Reject(MessageUnparsable))
  {
  }

  /** A plain request whose Content-Type is a SOAP media type is handled in
      that version, whatever the document's namespace; the namespace decides
      only when the media type names no version. */
  lemma {:induction false} MediaTypeTakesPrecedence(req: Request, v: SoapVersion, doc: SoapDocument)
    requires HasText(req.contentTypeHeader)
    requires req.parsedContentType.Some? && req.parsedContentType.value.plain == MimeType(v)
    requires req.document == Some(doc)
    ensures Classify(req) == Returned(Dispatch(doc, v))
  {
    VersionLookupsInvertNames(v);
    assert MimeType(v) != MULTIPART_RELATED by {
      assert MULTIPART_RELATED[0] == 'm';
      match v
      case Soap11 => assert MimeType(v)[0] == 't';
      case Soap12 => assert MimeType(v)[0] == 'a';
    }
  }

  /** Only SOAP 1.1 and 1.2 namespaces rescue a request whose framing names
      no version. */
  lemma NamespaceFallback(req: Request, doc: SoapDocument)
    requires HasText(req.contentTypeHeader) && req.parsedContentType.Some?
    requires req.parsedContentType.value.plain != MULTIPART_RELATED
    requires VersionForMimeType(req.parsedContentType.value.plain).None?
    requires req.document == Some(doc)
    ensures Classify(req) == Returned(if VersionForNamespace(doc.namespaceUri).Some?
                                      then Dispatch(doc, VersionForNamespace(doc.namespaceUri).value)
                                      else Reject(SoapVersionUnknown))
  {
  }

  /** The version a SOAP media type names, or else the one the document's
      namespace names, or none. */
  function VersionOf(mediaType: string, doc: SoapDocument): Option<SoapVersion>
  {
    if VersionForMimeType(mediaType).Some? then VersionForMimeType(mediaType) else VersionForNamespace(doc.namespaceUri)
  }

  /** A multipart request with a boundary is read from its first part: the
      part's media type names the version, the namespace of the document
      read from it is the fallback; a document that could not be read is
      refused naming the part's version when it has one. */
  lemma MultipartUsesFirstPart(req: Request, partType: string)
    requires HasText(req.contentTypeHeader) && req.parsedContentType.Some?
    requires req.parsedContentType.value.plain == MULTIPART_RELATED && HasText(req.parsedContentType.value.boundary)
    requires req.firstPart == Some(FirstPart(Some(partType)))
    ensures req.document.None? ==>
              Classify(req) == Returned(Reject(if VersionForMimeType(partType).Some?
                                               then SoapDocumentUnparsable(VersionForMimeType(partType).value)
                                               else MessageUnparsable))
    ensures req.document.Some? ==>
              Classify(req) == Returned(if VersionOf(partType, req.document.value).Some?
                                        then Dispatch(req.document.value, VersionOf(partType, req.document.value).value)
                                        else Reject(SoapVersionUnknown))
  {
  }

  /** A plain request whose body could not be read as XML is refused,
      naming the version its media type names when it names one. */
  lemma UnreadPlainDocument(req: Request)
    requires HasText(req.contentTypeHeader) && req.parsedContentType.Some?
    requires req.parsedContentType.value.plain != MULTIPART_RELATED && req.document.None?
    ensures Classify(req) == Returned(Reject(if VersionForMimeType(req.parsedContentType.value.plain).Some?
                                             then SoapDocumentUnparsable(VersionForMimeType(req.parsedContentType.value.plain).value)
                                             else MessageUnparsable))
  {
  }
}
