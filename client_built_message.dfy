/** The result of building a message on the client side: its message ID
    and the HTTP entity that carries it. */
module ClientBuiltMessages {
  import opened Common
  import opened Soap
  import opened Ebms3

  /** A SOAP document, rendered from the ebMS Messaging header. */
  datatype XmlDocument = XmlDocument(messaging: Messaging, soapVersion: SoapVersion)
  /** A MIME multipart message, by its parts. */
  datatype MimeDocument = MimeDocument(parts: seq<string>)

  datatype HttpEntity = XmlEntity(xml: XmlDocument) | MimeEntity(mime: MimeDocument)

  datatype BuiltMessage = BuiltMessage(messageId: string, httpEntity: HttpEntity)

  /** Why a built message cannot be constructed. */
  datatype BuiltMessageError = EmptyMessageId | NullEntity

  /** The two constructors' checks, in their order: the message ID must be
      non-empty, then the entity non-null. */
  function Construct(messageId: Option<string>, entity: Option<HttpEntity>): (r: Result<BuiltMessage, BuiltMessageError>)
    ensures r == Err(EmptyMessageId) <==> !HasText(messageId)
    ensures r == Err(NullEntity) <==> HasText(messageId) && entity.None?
    ensures r.Ok? ==> |r.value.messageId| > 0
  {
    if !HasText(messageId) then Err(EmptyMessageId)
    else if entity.None? then Err(NullEntity)
    else Ok(BuiltMessage(messageId.value, entity.value))
  }

  /** The constructor taking an XML entity. */
  function FromXmlEntity(messageId: Option<string>, entity: Option<XmlDocument>): (r: Result<BuiltMessage, BuiltMessageError>)
    ensures r == Err(EmptyMessageId) <==> !HasText(messageId)
    ensures r == Err(NullEntity) <==> HasText(messageId) && entity.None?
    ensures r.Ok? ==> r.value.httpEntity.XmlEntity?
  {
    Construct(messageId, if entity.Some? then Some(XmlEntity(entity.value)) else None)
  }

  /** The constructor taking a MIME entity. */
  function FromMimeEntity(messageId: Option<string>, entity: Option<MimeDocument>): (r: Result<BuiltMessage, BuiltMessageError>)
    ensures r == Err(EmptyMessageId) <==> !HasText(messageId)
    ensures r == Err(NullEntity) <==> HasText(messageId) && entity.None?
    ensures r.Ok? ==> r.value.httpEntity.MimeEntity?
  {
    Construct(messageId, if entity.Some? then Some(MimeEntity(entity.value)) else None)
  }

  /** The getters return what was passed to a successful constructor: the
      ID, never empty, and the entity, never null. */
  lemma GettersReturnConstructorArguments(messageId: string, xml: XmlDocument, mime: MimeDocument)
    requires |messageId| > 0
    ensures FromXmlEntity(Some(messageId), Some(xml)) == Ok(BuiltMessage(messageId, XmlEntity(xml)))
    ensures FromMimeEntity(Some(messageId), Some(mime)) == Ok(BuiltMessage(messageId, MimeEntity(mime)))
  {
  }
}
