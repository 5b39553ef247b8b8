/** The client that builds an AS4 Error message: a mutable list of errors,
    a SOAP version and a reference to the message in error, checked before
    every build. */
module ClientErrorMessages {
  import opened Common
  import opened Soap
  import opened Ebms3
  import opened MessageIds
  import opened ErrorMessages
  import opened ClientBuiltMessages

  /** The client's error list; Java lists may hold nulls. */
  class ErrorList {
    var items: seq<Option<Ebms3Error>>

    constructor ()
      ensures items == []
    {
      items := [];
    }
  }

  /** Why a build is refused. */
  datatype BuildError =
    | NoSoapVersion          // "A SOAPVersion must be set."
    | NoErrors               // "No Errors specified!"
    | NullError              // "Errors may not contain null elements."
    | NoRefToMessage         // "No reference to a message set."
    | EmptyDescription       // AS4ErrorMessage refuses an empty error description

  /** `_checkMandatoryAttributes`: the first unmet requirement, in the order
      SOAP version, non-empty list, no null element, a reference with
      text; `None` when all are met. */
  function MandatoryAttributeProblem(soapVersion: Option<SoapVersion>, errors: seq<Option<Ebms3Error>>,
                                     refToMessageId: Option<string>): (r: Option<BuildError>)
    ensures r == Some(NoSoapVersion) <==> soapVersion.None?
    ensures r == Some(NoErrors) <==> soapVersion.Some? && errors == []
    ensures r == Some(NullError) <==> soapVersion.Some? && errors != [] && None in errors
    ensures r == Some(NoRefToMessage) <==>
              soapVersion.Some? && errors != [] && None !in errors && !HasText(refToMessageId)
    ensures r.None? <==>
              soapVersion.Some? && errors != [] && None !in errors && HasText(refToMessageId)
  {
    if soapVersion.None? then Some(NoSoapVersion)
    else if errors == [] then Some(NoErrors)
    else if None in errors then Some(NullError)
    else if !HasText(refToMessageId) then Some(NoRefToMessage)
    else None
  }

  /** The non-null errors of a list that has no null. */
  function Present(errors: seq<Option<Ebms3Error>>): (r: seq<Ebms3Error>)
    requires None !in errors
    ensures |r| == |errors| && forall i :: 0 <= i < |errors| ==> errors[i] == Some(r[i])
  {
    if errors == [] then []
    else assert errors[0] in errors; [errors[0].value] + Present(errors[1..])
  }

  class AS4ClientErrorMessage {
    var soapVersion: Option<SoapVersion>
    var refToMessageId: Option<string>
    const errorList: ErrorList

    /** A client with an empty error list and no reference. */
    constructor (soapVersion: Option<SoapVersion>)
      ensures this.soapVersion == soapVersion && refToMessageId == None
      ensures fresh(errorList) && errorList.items == []
    {
      this.soapVersion := soapVersion;
      refToMessageId := None;
      errorList := new ErrorList();
    }

    method SetSoapVersion(v: Option<SoapVersion>)
      modifies this
      ensures soapVersion == v && refToMessageId == old(refToMessageId)
    {
      soapVersion := v;
    }

    method SetRefToMessageId(ref: Option<string>)
      modifies this
      ensures refToMessageId == ref && soapVersion == old(soapVersion)
    {
      refToMessageId := ref;
    }

    /** `errorMessages()`: the live list, not a copy; whatever a caller does
        to it is what a later build sees. */
    function ErrorMessages(): (l: ErrorList)
      ensures l == errorList
    {
      errorList
    }

    /** `addErrorMessage`: appends exactly one error, the template
        instantiated with the current reference to the message in error,
        and leaves the earlier entries as they were. */
    method AddErrorMessage(template: Ebms3Error)
      modifies errorList
      ensures errorList.items == old(errorList.items) + [Some(template.(refToMessageInError := refToMessageId))]
    {
      errorList.items := errorList.items + [Some(template.(refToMessageInError := refToMessageId))];
    }

    /** `buildMessage`: all mandatory checks run before an ID is drawn; each
        build then draws a fresh ID, builds an Error message whose message
        info carries that ID and refers to the reference, and wraps its SOAP
        document in an XML entity under the same ID. The Error message still
        refuses an empty error description after the ID was drawn. */
    method BuildMessage(ids: MessageIdGenerator) returns (r: Result<BuiltMessage, BuildError>)
      requires ids.Valid()
      modifies ids
      ensures ids.Valid()
      ensures var p := MandatoryAttributeProblem(old(soapVersion), old(errorList.items), old(refToMessageId));
              p.Some? ==> r == Err(p.value) && ids.Issued == old(ids.Issued)
      ensures r.Ok? ==>
                && MandatoryAttributeProblem(soapVersion, errorList.items, refToMessageId).None?
                && r.value.messageId !in old(ids.Issued)
                && ids.Issued == old(ids.Issued) + {r.value.messageId}
                && var signal := SignalMessage(Some(MessageInfo(r.value.messageId, refToMessageId)),
                                               Present(errorList.items));
                   r.value.httpEntity == XmlEntity(XmlDocument(Messaging([], [signal]), soapVersion.value))
      ensures MandatoryAttributeProblem(soapVersion, errorList.items, refToMessageId).None? ==>
                exists id :: id !in old(ids.Issued) && ids.Issued == old(ids.Issued) + {id}
      ensures r == Err(EmptyDescription) <==>
                MandatoryAttributeProblem(soapVersion, errorList.items, refToMessageId).None?
                && exists e :: e in Present(errorList.items) && HasEmptyDescription(e)
      ensures MandatoryAttributeProblem(soapVersion, errorList.items, refToMessageId).None?
              && (forall e :: e in Present(errorList.items) ==> !HasEmptyDescription(e))
              ==> r.Ok?
    {
      var problem := MandatoryAttributeProblem(soapVersion, errorList.items, refToMessageId);
      if problem.Some? {
        return Err(problem.value);
      }
      var id := ids.Next();
      var errors := Present(errorList.items);
      var message := Create(soapVersion.value, MessageInfo(id, refToMessageId), errors);
      if message.None? {
        return Err(EmptyDescription);
      }
      var entity := XmlEntity(XmlDocument(message.value.messaging, soapVersion.value));
      return Ok(BuiltMessage(id, entity));
    }
  }
}
