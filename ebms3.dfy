/** The ebMS 3.0 message header elements the receiver reads and writes
    (ebMS 3.0 Core, section 5.2), as plain values. */
module Ebms3 {
  import opened Common

  /** Message property names of the four-corner model. */
  const ORIGINAL_SENDER: string := "originalSender"
  const FINAL_RECIPIENT: string := "finalRecipient"

  /** Name of the part property that carries an attachment's MIME type. */
  const PART_PROPERTY_MIME_TYPE: string := "MimeType"

  /** Error code of EBMS:0004 "Other" (ebMS 3.0 Core, section 6.7.1). */
  const EBMS_OTHER: string := "EBMS:0004"

  /** Severity value "failure" (ebMS 3.0 Core, section 6.2). */
  const SEVERITY_FAILURE: string := "failure"

  datatype Property = Property(name: string, value: Option<string>)

  datatype Description = Description(lang: string, value: Option<string>)

  datatype Ebms3Error = Ebms3Error(
    errorCode: string,
    severity: string,
    shortDescription: Option<string>,
    errorDetail: Option<string>,
    origin: Option<string>,
    refToMessageInError: Option<string>,
    description: Option<Description>)

  /** MessageInfo; the timestamp is not modelled. */
  datatype MessageInfo = MessageInfo(messageId: string, refToMessageId: Option<string>)

  datatype PartyId = PartyId(idType: Option<string>, value: string)

  /** From or To. The schema requires at least one PartyId, so the first one
      is a field of its own. */
  datatype Party = Party(role: string, firstPartyId: PartyId, morePartyIds: seq<PartyId>)

  datatype PartyInfo = PartyInfo(from: Party, to: Party)

  datatype CollaborationInfo = CollaborationInfo(agreementRef: Option<string>,
                                                 service: string,
                                                 action: string,
                                                 conversationId: string)

  /** A PartInfo: `href` is absent for a payload in the SOAP Body, and the
      PartProperties container may be absent. */
  datatype PartInfo = PartInfo(href: Option<string>, partProperties: Option<seq<Property>>)

  datatype UserMessage = UserMessage(
    messageInfo: MessageInfo,
    partyInfo: PartyInfo,
    collaborationInfo: CollaborationInfo,
    messageProperties: Option<seq<Property>>,
    payloadInfo: Option<seq<PartInfo>>)

  /** A SignalMessage carrying errors (receipts and pull requests are not
      built through this type). */
  datatype SignalMessage = SignalMessage(messageInfo: Option<MessageInfo>, errors: seq<Ebms3Error>)

  /** The eb:Messaging header. */
  datatype Messaging = Messaging(userMessages: seq<UserMessage>, signalMessages: seq<SignalMessage>)

  /** The predefined errors of ebMS 3.0 Core section 6.7, as rendered by the
      library: a table from error code to the error it produces. */
  type ErrorCatalogue = map<string, Ebms3Error>

  /** Every entry is filed under its own code, and EBMS:0004 is present. */
  predicate ValidCatalogue(c: ErrorCatalogue)
  {
    EBMS_OTHER in c && forall code :: code in c ==> c[code].errorCode == code
  }

  /** The catalogue entry for a code, or null when the code is not predefined. */
  function PredefinedOrNull(c: ErrorCatalogue, code: string): (r: Option<Ebms3Error>)
    requires ValidCatalogue(c)
    ensures r.Some? <==> code in c
    ensures r.Some? ==> r.value.errorCode == code
  {
    if code in c then Some(c[code]) else None
  }
}
