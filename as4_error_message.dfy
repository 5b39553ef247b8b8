/** The AS4 Error message: a signal message carrying ebMS errors, whose
    construction refuses an error description without text. */
module ErrorMessages {
  import opened Common
  import opened Soap
  import opened Ebms3
  import opened MessageIds

  datatype MessageType = UserMessageType | ErrorMessageType | ReceiptType | PullRequestType

  /** An error whose description is present but has no text, which would
      lead to invalid XML. */
  predicate HasEmptyDescription(e: Ebms3Error)
  {
    e.description.Some? && !HasText(e.description.value.value)
  }

  /** The constructor's check over the errors of the signal message: the
      message is accepted iff no error has an empty description; errors
      without any description are accepted. */
  method DescriptionsAreValid(errors: seq<Ebms3Error>) returns (ok: bool)
    ensures ok <==> forall i :: 0 <= i < |errors| ==> !HasEmptyDescription(errors[i])
    ensures ok <==> forall e :: e in errors ==> e.description.None? || HasText(e.description.value.value)
  {
    var i := 0;
    while i < |errors|
      invariant 0 <= i <= |errors|
      invariant forall j :: 0 <= j < i ==> !HasEmptyDescription(errors[j])
    {
      if errors[i].description != None && !HasText(errors[i].description.value.value) {
        return false;
      }
      i := i + 1;
    }
    return true;
  }

  class AS4ErrorMessage {
    const soapVersion: SoapVersion
    const messageType: MessageType
    /** The ebMS Messaging header the message is rendered from. */
    var messaging: Messaging
    const signalMessage: SignalMessage

    /** Only reached once the descriptions have been checked; a message with
        an empty description is never handed out. */
    constructor (soapVersion: SoapVersion, signalMessage: SignalMessage)
      requires forall e :: e in signalMessage.errors ==> !HasEmptyDescription(e)
      ensures this.soapVersion == soapVersion && this.messageType == ErrorMessageType
      ensures this.messaging == Messaging([], [signalMessage])
      ensures this.signalMessage == signalMessage
    {
      this.soapVersion := soapVersion;
      this.messageType := ErrorMessageType;
      this.messaging := Messaging([], [signalMessage]);
      this.signalMessage := signalMessage;
    }

    /** The signal message passed on construction. */
    function GetEbms3SignalMessage(): (s: SignalMessage)
      ensures s == signalMessage
    {
      signalMessage
    }
  }

  /** The constructor as a whole: an IllegalArgumentException (here `None`)
      when some error has an empty description, otherwise a new Error
      message whose Messaging header holds exactly the signal message. */
  method NewErrorMessage(soapVersion: SoapVersion, signalMessage: SignalMessage) returns (r: Option<AS4ErrorMessage>)
    ensures r.None? <==> exists e :: e in signalMessage.errors && HasEmptyDescription(e)
    ensures r.Some? ==> fresh(r.value) && r.value.soapVersion == soapVersion
                        && r.value.messageType == ErrorMessageType
                        && r.value.messaging == Messaging([], [signalMessage])
                        && r.value.signalMessage == signalMessage
  {
    var ok := DescriptionsAreValid(signalMessage.errors);
    if !ok {
      return None;
    }
    var m := new AS4ErrorMessage(soapVersion, signalMessage);
    return Some(m);
  }

  /** `create` with a message info: the info and the error list are stored
      unchanged in the signal message. */
  method Create(soapVersion: SoapVersion, messageInfo: MessageInfo, errors: seq<Ebms3Error>)
    returns (r: Option<AS4ErrorMessage>)
    ensures r.None? <==> exists e :: e in errors && HasEmptyDescription(e)
    ensures r.Some? ==> fresh(r.value) && r.value.soapVersion == soapVersion
                        && r.value.messageType == ErrorMessageType
                        && r.value.signalMessage == SignalMessage(Some(messageInfo), errors)
                        && r.value.messaging == Messaging([], [r.value.signalMessage])
  {
    r := NewErrorMessage(soapVersion, SignalMessage(Some(messageInfo), errors));
  }

  /** `create` with a reference: a message info with a fresh message ID
      referring to `refToMessageId`, then the message-info overload. */
  method CreateWithRef(soapVersion: SoapVersion, refToMessageId: Option<string>, errors: seq<Ebms3Error>,
                       ids: MessageIdGenerator)
    returns (r: Option<AS4ErrorMessage>)
    requires ids.Valid()
    modifies ids
    ensures ids.Valid()
    ensures r.None? <==> exists e :: e in errors && HasEmptyDescription(e)
    ensures r.Some? ==>
              && fresh(r.value) && r.value.soapVersion == soapVersion
              && r.value.signalMessage.errors == errors
              && r.value.signalMessage.messageInfo.Some?
              && r.value.signalMessage.messageInfo.value.refToMessageId == refToMessageId
              && r.value.signalMessage.messageInfo.value.messageId !in old(ids.Issued)
              && ids.Issued == old(ids.Issued) + {r.value.signalMessage.messageInfo.value.messageId}
  {
    var id := ids.Next();
    r := Create(soapVersion, MessageInfo(id, refToMessageId), errors);
  }
}
