/** `_handleSOAPMessage`: the decisions the receiver takes for one SOAP
    message, from the header pipeline to the response it sends. */
module Receiver {
  import opened Common
  import opened Soap
  import opened Ebms3
  import opened PModes
  import opened MessageIds
  import opened HeaderPipeline
  import opened Attachments
  import opened MessageProperties
  import opened Provisioning
  import opened BusinessProcessors
  import opened ResponseSynthesis

  /** What the header processors leave in the message state. */
  datatype MessageState = MessageState(
    messaging: Option<Messaging>,
    originalAttachments: seq<Attachment>,
    decryptedAttachments: Option<seq<Attachment>>,
    decryptedDocument: Option<SoapDocument>,
    pmodeConfig: Option<PModeConfig>,
    initiatorId: string,
    responderId: string,
    usedCertificate: Option<Certificate>,
    compressionModes: map<string, CompressionMode>)

  /** The user message of the state: the first one of the Messaging
      header; reading it without a Messaging header, or from an empty one,
      throws. */
  function FirstUserMessage(s: MessageState): Option<UserMessage>
  {
    if s.messaging.Some? && s.messaging.value.userMessages != [] then Some(s.messaging.value.userMessages[0]) else None
  }

  /** The attachments the rest of the processing works on: the decrypted
      ones when decryption produced any, else the received ones. */
  function WorkingAttachments(s: MessageState): seq<Attachment>
  {
    if s.decryptedAttachments.Some? then s.decryptedAttachments.value else s.originalAttachments
  }

  /** The configured AS4 profile and its verdict on the configuration and
      the user message. */
  datatype ProfileCheck = NoProfileConfigured | ProfileNotFound(name: string) | ProfileRejects(name: string) | ProfileAccepts

  datatype BadRequestReason =
    | MissingHeader
    | MissingBody
    | UnprocessedMustUnderstand(qname: QName)
    | DecryptedMissingBody
    | PropertiesRejected(problem: PropertyProblem)
    | ProcessorThrew(index: nat, message: string)
    | UnknownProfile(name: string)
    | ProfileValidationFailed(name: string)

  datatype ResponseBody = XmlBody(version: SoapVersion) | MimeBody(kind: MimeKind, httpHeaders: seq<(string, string)>)

  /** What the receiver answers. An exception escaping the handler is an
      internal server error. */
  datatype Response =
    | BadRequest(reason: BadRequestReason)
    | InternalError
    | ErrorResponse(version: SoapVersion, signal: SignalMessage)
    | ReceiptResponse(version: SoapVersion, messageInfo: MessageInfo, refToMessageId: string, nonRepudiation: bool)
    | UserMessageResponse(message: ResponseUserMessage, signed: bool, body: ResponseBody)
    | NoContent

  function HeaderQNames(children: seq<HeaderElement>): (qs: seq<QName>)
    ensures |qs| == |children| && forall i :: 0 <= i < |children| ==> qs[i] == children[i].qname
  {
    seq(|children|, i requires 0 <= i < |children| => children[i].qname)
  }

  /** The error signal sent for `errors` when the PMode allows it. */
  predicate IsErrorReply(r: Response, version: SoapVersion, errors: seq<Ebms3Error>, issued: set<string>)
  {
    r.ErrorResponse? && r.version == version && r.signal.errors == errors
    && r.signal.messageInfo.Some? && r.signal.messageInfo.value.refToMessageId.None?
    && r.signal.messageInfo.value.messageId !in issued
  }

  /** How the header stage ends. */
  datatype HeaderOutcome = HeaderRejected(reason: BadRequestReason) | HeaderErrors(errors: seq<Ebms3Error>) | HeadersAccepted

  /** A header of the document is flagged mustUnderstand and its position is
      not among those the pipeline marked processed. */
  predicate LeftUnprocessed(children: seq<HeaderElement>, version: SoapVersion, processed: set<nat>, i: int)
  {
    0 <= i < |children| && children[i].mustUnderstandAttribute == MustUnderstandTrue(version) && i !in processed
  }

  /** The mustUnderstand gate's answer on the extracted headers, read back
      on the document's header children: no answer exactly when no child is
      left unprocessed, otherwise the QName of the first such child. */
  lemma GateReadsDocumentOrder(headers: seq<SoapHeader>, children: seq<HeaderElement>, version: SoapVersion,
                               processed: set<nat>, r: Option<QName>)
    requires |headers| == |children|
    requires forall i :: 0 <= i < |headers| ==>
               headers[i].qname == children[i].qname
               && (headers[i].mustUnderstand && !headers[i].processed <==> LeftUnprocessed(children, version, processed, i))
    requires r.None? <==> forall i :: 0 <= i < |headers| ==> headers[i].mustUnderstand ==> headers[i].processed
    requires r.Some? ==> exists i :: 0 <= i < |headers| && headers[i].mustUnderstand && !headers[i].processed
                                     && headers[i].qname == r.value
                                     && forall j :: 0 <= j < i ==> headers[j].mustUnderstand ==> headers[j].processed
    ensures r.None? <==> forall i :: !LeftUnprocessed(children, version, processed, i)
    ensures r.Some? ==> exists i :: LeftUnprocessed(children, version, processed, i) && children[i].qname == r.value
                                    && forall j :: 0 <= j < i ==> !LeftUnprocessed(children, version, processed, j)
  {
    if r.Some? {
      var k :| 0 <= k < |headers| && headers[k].mustUnderstand && !headers[k].processed && headers[k].qname == r.value
               && forall j :: 0 <= j < k ==> headers[j].mustUnderstand ==> headers[j].processed;
      assert LeftUnprocessed(children, version, processed, k);
    } else {
      forall i ensures !LeftUnprocessed(children, version, processed, i) {
        if 0 <= i < |headers| {
          assert headers[i].mustUnderstand ==> headers[i].processed;
        }
      }
    }
  }

  /** The header stage lets the message through: Header and Body are
      present, the pipeline collected no error and no mustUnderstand header
      is left unprocessed. */
  ghost predicate HeadersPass(doc: SoapDocument, version: SoapVersion, c: ErrorCatalogue, registry: seq<Registration>)
    requires ValidCatalogue(c)
  {
    && HeaderOf(doc, version).Some? && BodyOf(doc, version).Some?
    && var children := HeaderOf(doc, version).value;
       var p := Pipeline(c, registry, HeaderQNames(children));
       p.errors == [] && forall i :: !LeftUnprocessed(children, version, p.processed, i)
  }

  /** Header and Body lookup, the header pipeline and the mustUnderstand
      gate (`AS4Servlet.java` lines 248-357). The gate runs only when the
      pipeline collected no error, and names the first mustUnderstand header
      no processor marked. */
  method CheckHeaders(doc: SoapDocument, version: SoapVersion, c: ErrorCatalogue, registry: seq<Registration>)
    returns (outcome: HeaderOutcome)
    requires ValidCatalogue(c)
    ensures HeaderOf(doc, version).None? ==> outcome == HeaderRejected(MissingHeader)
    ensures HeaderOf(doc, version).Some? && BodyOf(doc, version).None? ==> outcome == HeaderRejected(MissingBody)
    ensures HeaderOf(doc, version).Some? && BodyOf(doc, version).Some? ==>
              var children := HeaderOf(doc, version).value;
              var p := Pipeline(c, registry, HeaderQNames(children));
              && (p.errors != [] ==> outcome == HeaderErrors(p.errors))
              && (p.errors == [] ==>
                    && (outcome == HeadersAccepted <==> forall i :: !LeftUnprocessed(children, version, p.processed, i))
                    && (outcome != HeadersAccepted ==>
                          exists i :: LeftUnprocessed(children, version, p.processed, i)
                                      && outcome == HeaderRejected(UnprocessedMustUnderstand(children[i].qname))
                                      && forall j :: 0 <= j < i ==> !LeftUnprocessed(children, version, p.processed, j)))
    ensures outcome == HeadersAccepted <==> HeadersPass(doc, version, c, registry)
  {
    var children := HeaderOf(doc, version);
    if children.None? {
      return HeaderRejected(MissingHeader);
    }
    var body := BodyOf(doc, version);
    if body.None? {
      return HeaderRejected(MissingBody);
    }
    var headers := ExtractAllHeaders(version, children.value);
    assert QNames(headers) == HeaderQNames(children.value);
    var errors := RunHeaderPipeline(c, registry, headers);
    if errors != [] {
      return HeaderErrors(errors);
    }
    ghost var p := Pipeline(c, registry, HeaderQNames(children.value));
    assert forall i :: 0 <= i < |headers| ==>
             headers[i].qname == children.value[i].qname
             && (headers[i].mustUnderstand && !headers[i].processed <==> LeftUnprocessed(children.value, version, p.processed, i));
    var unprocessed := FindUnprocessedMustUnderstand(headers);
    GateReadsDocumentOrder(headers, children.value, version, p.processed, unprocessed);
    if unprocessed.Some? {
      return HeaderRejected(UnprocessedMustUnderstand(unprocessed.value));
    }
    return HeadersAccepted;
  }

  /** How the user-message stage ends: with a response, or with the user
      message, the errors collected so far and the processors'
      attachments. */
  datatype MessageOutcome =
    | Halt(response: Response)
    | Continue(userMessage: UserMessage, cfg: PModeConfig, errors: seq<Ebms3Error>, responseAttachments: seq<Attachment>)

  predicate IsPing(cfg: PModeConfig)
  {
    IsNotPingMessage(cfg) == Returned(false)
  }

  /** How the preparation of the user message ends. */
  datatype Prepared = Refused(response: Response) | Ready(userMessage: UserMessage)

  /** Correlating one of the working attachments with the user message
      throws. */
  ghost predicate DecompressionThrows(state: MessageState)
  {
    FirstUserMessage(state).Some?
    && FirstThrowing(FirstUserMessage(state).value, state.compressionModes, WorkingAttachments(state))
       < |WorkingAttachments(state)|
  }

  /** Lines 359-412 on a message state: no user message, or a correlation
      that throws, is an internal error; then a decrypted document without
      Body, then rejected properties, are refused as bad requests; anything
      else goes on with the first user message. */
  ghost function Preparation(version: SoapVersion, state: MessageState): Prepared
  {
    match FirstUserMessage(state)
    case None => Refused(InternalError)
    case Some(um) =>
      if DecompressionThrows(state) then Refused(InternalError)
      else if state.decryptedDocument.Some? && BodyOf(state.decryptedDocument.value, version).None? then
        Refused(BadRequest(DecryptedMissingBody))
      else if PropertyProblemOf(um.messageProperties).Some? then
        Refused(BadRequest(PropertiesRejected(PropertyProblemOf(um.messageProperties).value)))
      else Ready(um)
  }

  /** The working attachments after the preparation: decompressed as far
      as the first throwing correlation once there is a user message,
      otherwise untouched. */
  twostate predicate PreparedAttachments(state: MessageState)
    reads set a | a in WorkingAttachments(state)
  {
    if FirstUserMessage(state).Some? then
      Decompressed(FirstUserMessage(state).value, state.compressionModes, WorkingAttachments(state))
    else Untouched(WorkingAttachments(state))
  }

  /** Lines 452-518 after provisioning: a ping goes on without errors; a
      message ID seen before gets the duplicate error; otherwise the
      processors run up to the first that does not succeed, whose failure
      becomes the one error, and a processor that returns nothing or throws
      halts the request. A configuration without Leg1 throws on the ping
      test. */
  function Dispatched(c: ErrorCatalogue, um: UserMessage, cfg: PModeConfig, seen: set<string>,
                      spiResults: seq<SpiResult>, lang: string): MessageOutcome
    requires ValidCatalogue(c)
  {
    match IsNotPingMessage(cfg)
    case Threw => Halt(InternalError)
    case Returned(notPing) =>
      var id := um.messageInfo.messageId;
      var k := FirstStop(spiResults);
      if !notPing then Continue(um, cfg, [], [])
      else if id in seen then Continue(um, cfg, [DuplicateError(c, id, lang)], [])
      else if k == |spiResults| then Continue(um, cfg, [], Collected(spiResults[..k]))
      else match spiResults[k]
        case SpiFailure(m) => Continue(um, cfg, [FailureError(id, m, lang)], Collected(spiResults[..k]))
        case SpiNoResult => Halt(BadRequest(ProcessorThrew(k, NO_RESULT_TEXT)))
        case SpiThrows(m) => Halt(BadRequest(ProcessorThrew(k, m)))
        case SpiSuccess(_) => assert false; Halt(InternalError)
  }

  /** Lines 359-518: the preparation, then a missing PMode configuration is
      an internal error (the configuration's ID is dereferenced at line
      423), then the dispatch. */
  ghost function UserMessageStage(version: SoapVersion, c: ErrorCatalogue, state: MessageState, seen: set<string>,
                                  spiResults: seq<SpiResult>, lang: string): MessageOutcome
    requires ValidCatalogue(c)
  {
    match Preparation(version, state)
    case Refused(response) => Halt(response)
    case Ready(um) =>
      if state.pmodeConfig.None? then Halt(InternalError)
      else Dispatched(c, um, state.pmodeConfig.value, seen, spiResults, lang)
  }

  /** The stores after the user-message stage: provisioned once a prepared
      message has a configuration (lines 423-450), before the ping test can
      throw. */
  ghost function StoresAfter(version: SoapVersion, state: MessageState, before: Stores): Stores
  {
    match Preparation(version, state)
    case Refused(_) => before
    case Ready(um) =>
      if state.pmodeConfig.None? then before
      else Provision(before, state.pmodeConfig.value.id, state.initiatorId, state.responderId, state.usedCertificate,
                     um.partyInfo)
  }

  /** The registered message IDs after the user-message stage: the user
      message's ID is added exactly when it is prepared, configured and not
      a ping. */
  ghost function SeenAfter(version: SoapVersion, state: MessageState, before: set<string>): set<string>
  {
    match Preparation(version, state)
    case Refused(_) => before
    case Ready(um) =>
      if state.pmodeConfig.Some? && IsNotPingMessage(state.pmodeConfig.value) == Returned(true)
      then before + {um.messageInfo.messageId}
      else before
  }

  /** Lines 359-412: the user message, the decompression of the working
      attachments, the decrypted Body and the property check. */
  method PrepareUserMessage(version: SoapVersion, state: MessageState) returns (outcome: Prepared)
    requires Distinct(state.originalAttachments)
    requires state.decryptedAttachments.Some? ==> Distinct(state.decryptedAttachments.value)
    modifies set a | a in WorkingAttachments(state)
    ensures outcome == Preparation(version, state)
    ensures PreparedAttachments(state)
  {
    var userMessage := FirstUserMessage(state);
    if userMessage.None? {
      return Refused(InternalError);
    }
    var um := userMessage.value;
    var threw := DecompressAttachments(um, state.compressionModes, WorkingAttachments(state));
    if threw {
      return Refused(InternalError);
    }
    if state.decryptedDocument.Some? && BodyOf(state.decryptedDocument.value, version).None? {
      return Refused(BadRequest(DecryptedMissingBody));
    }
    var problem := ValidateMessageProperties(um.messageProperties);
    if problem.Some? {
      return Refused(BadRequest(PropertiesRejected(problem.value)));
    }
    return Ready(um);
  }

  /** Lines 414-518 for a prepared user message: provisioning, then for
      anything but a ping the duplicate check and the processors. */
  method DispatchUserMessage(c: ErrorCatalogue, um: UserMessage, state: MessageState, stores: StoreManager,
                             spiResults: seq<SpiResult>, lang: string)
    returns (outcome: MessageOutcome)
    requires ValidCatalogue(c)
    modifies stores
    ensures state.pmodeConfig.None? ==> outcome == Halt(InternalError) && stores.Value() == old(stores.Value())
    ensures state.pmodeConfig.Some? ==>
              && outcome == Dispatched(c, um, state.pmodeConfig.value, old(stores.seenMessageIds), spiResults, lang)
              && stores.Value() == Provision(old(stores.Value()), state.pmodeConfig.value.id, state.initiatorId,
                                             state.responderId, state.usedCertificate, um.partyInfo)
    ensures stores.seenMessageIds
            == if state.pmodeConfig.Some? && IsNotPingMessage(state.pmodeConfig.value) == Returned(true)
               then old(stores.seenMessageIds) + {um.messageInfo.messageId}
               else old(stores.seenMessageIds)
  {
    if state.pmodeConfig.None? {
      return Halt(InternalError);
    }
    var cfg := state.pmodeConfig.value;
    stores.ApplyProvisioning(cfg.id, state.initiatorId, state.responderId, state.usedCertificate, um.partyInfo);

    var notPing := IsNotPingMessage(cfg);
    if notPing.Threw? {
      return Halt(InternalError);
    }
    if !notPing.value {
      return Continue(um, cfg, [], []);
    }
    var messageId := um.messageInfo.messageId;
    var duplicate := stores.RegisterMessageId(messageId);
    if duplicate {
      return Continue(um, cfg, [DuplicateError(c, messageId, lang)], []);
    }
    var run := InvokeProcessors(spiResults, messageId, lang);
    match run.stop {
      case ThrewAt(i, m) => return Halt(BadRequest(ProcessorThrew(i, m)));
      case Failed(e) => return Continue(um, cfg, [e], run.responseAttachments);
      case Completed => return Continue(um, cfg, [], run.responseAttachments);
    }
  }

  /** The stage after a clean header pipeline (lines 359-518), as
      `UserMessageStage`, `StoresAfter` and `SeenAfter` describe it. */
  method ProcessUserMessage(version: SoapVersion, c: ErrorCatalogue, state: MessageState, stores: StoreManager,
                            spiResults: seq<SpiResult>, lang: string)
    returns (outcome: MessageOutcome)
    requires ValidCatalogue(c)
    requires Distinct(state.originalAttachments)
    requires state.decryptedAttachments.Some? ==> Distinct(state.decryptedAttachments.value)
    modifies stores, set a | a in WorkingAttachments(state)
    ensures outcome == UserMessageStage(version, c, state, old(stores.seenMessageIds), spiResults, lang)
    ensures stores.Value() == StoresAfter(version, state, old(stores.Value()))
    ensures stores.seenMessageIds == SeenAfter(version, state, old(stores.seenMessageIds))
    ensures PreparedAttachments(state)
  {
    var prepared := PrepareUserMessage(version, state);
    if prepared.Refused? {
      return Halt(prepared.response);
    }
    outcome := DispatchUserMessage(c, prepared.userMessage, state, stores, spiResults, lang);
  }

  /** A halted dispatch is an internal error from the ping test or names
      the first processor that did not succeed, which returned nothing or
      threw. */
  lemma DispatchedHalts(c: ErrorCatalogue, um: UserMessage, cfg: PModeConfig, seen: set<string>,
                        spiResults: seq<SpiResult>, lang: string)
    requires ValidCatalogue(c)
    ensures var o := Dispatched(c, um, cfg, seen, spiResults, lang);
            o.Halt? ==>
              || (o.response == InternalError && IsNotPingMessage(cfg).Threw?)
              || (&& o.response.BadRequest? && o.response.reason.ProcessorThrew?
                  && var k := FirstStop(spiResults);
                     k == o.response.reason.index < |spiResults| && (spiResults[k].SpiNoResult? || spiResults[k].SpiThrows?))
  {
    var k := FirstStop(spiResults);
    match IsNotPingMessage(cfg) {
      case Threw =>
      case Returned(notPing) =>
        if notPing && um.messageInfo.messageId !in seen && k < |spiResults| {
          assert !spiResults[k].SpiSuccess?;
        }
    }
  }

  /** A halted user-message stage answers with an internal error or one of
      the stage's bad requests; a processor named as thrown is the first
      that did not succeed and returned nothing or threw. */
  lemma {:induction false} UserMessageStageHalts(version: SoapVersion, c: ErrorCatalogue, state: MessageState,
                                                 seen: set<string>, spiResults: seq<SpiResult>, lang: string)
    requires ValidCatalogue(c)
    ensures var o := UserMessageStage(version, c, state, seen, spiResults, lang);
            o.Halt? ==>
              && (|| o.response.InternalError?
                  || o.response == BadRequest(DecryptedMissingBody)
                  || (o.response.BadRequest? && o.response.reason.PropertiesRejected?)
                  || (o.response.BadRequest? && o.response.reason.ProcessorThrew?))
              && (o.response.BadRequest? && o.response.reason.ProcessorThrew? ==>
                    var k := FirstStop(spiResults);
                    k == o.response.reason.index < |spiResults| && (spiResults[k].SpiNoResult? || spiResults[k].SpiThrows?))
  {
    match Preparation(version, state) {
      case Refused(_) =>
      case Ready(um) =>
        if state.pmodeConfig.Some? {
          DispatchedHalts(c, um, state.pmodeConfig.value, seen, spiResults, lang);
        }
    }
  }

  /** The user-message stage ends in an internal error exactly when there
      is no user message, a correlation throws, or a message that passed
      the Body and property checks has no configuration or one the ping
      test throws on. */
  lemma {:induction false} InternalErrorCases(version: SoapVersion, c: ErrorCatalogue, state: MessageState,
                                              seen: set<string>, spiResults: seq<SpiResult>, lang: string)
    requires ValidCatalogue(c)
    ensures UserMessageStage(version, c, state, seen, spiResults, lang) == Halt(InternalError) <==>
              || FirstUserMessage(state).None?
              || DecompressionThrows(state)
              || (&& !(state.decryptedDocument.Some? && BodyOf(state.decryptedDocument.value, version).None?)
                  && PropertiesAccepted(FirstUserMessage(state).value.messageProperties)
                  && (state.pmodeConfig.None? || IsNotPingMessage(state.pmodeConfig.value).Threw?))
  {
    if Preparation(version, state).Ready? && state.pmodeConfig.Some? {
      var k := FirstStop(spiResults);
      assert k < |spiResults| ==> !spiResults[k].SpiSuccess?;
    }
  }

  /** A message whose properties are rejected halts before provisioning:
      the stores and the registered IDs are unchanged. */
  lemma RejectedPropertiesChangeNothing(version: SoapVersion, c: ErrorCatalogue, state: MessageState, stores: Stores,
                                        seen: set<string>, spiResults: seq<SpiResult>, lang: string)
    requires ValidCatalogue(c)
    requires FirstUserMessage(state).Some? && !PropertiesAccepted(FirstUserMessage(state).value.messageProperties)
    ensures UserMessageStage(version, c, state, seen, spiResults, lang).Halt?
    ensures StoresAfter(version, state, stores) == stores && SeenAfter(version, state, seen) == seen
  {
  }

  /** Only the user message's own ID is ever registered, and a ping
      registers nothing and is never halted by a processor. */
  lemma RegistrationIsTheUserMessageId(version: SoapVersion, c: ErrorCatalogue, state: MessageState, seen: set<string>,
                                       spiResults: seq<SpiResult>, lang: string)
    requires ValidCatalogue(c)
    ensures var after := SeenAfter(version, state, seen);
            after == seen
            || (FirstUserMessage(state).Some? && after == seen + {FirstUserMessage(state).value.messageInfo.messageId})
    ensures state.pmodeConfig.Some? && IsPing(state.pmodeConfig.value) ==>
              && SeenAfter(version, state, seen) == seen
              && var o := UserMessageStage(version, c, state, seen, spiResults, lang);
                 !(o.Halt? && o.response.BadRequest? && o.response.reason.ProcessorThrew?)
  {
  }

  /** A dispatch that goes on keeps the message and the configuration; a
      ping has no errors and no attachments, a repeated ID only the
      duplicate error, and otherwise the errors and attachments are those of
      the processors up to the first stop. */
  lemma DispatchedContinues(c: ErrorCatalogue, um: UserMessage, cfg: PModeConfig, seen: set<string>,
                            spiResults: seq<SpiResult>, lang: string)
    requires ValidCatalogue(c)
    ensures var o := Dispatched(c, um, cfg, seen, spiResults, lang);
            o.Continue? ==>
              && o.userMessage == um && o.cfg == cfg
              && var id := um.messageInfo.messageId;
                 if IsPing(cfg) then o.errors == [] && o.responseAttachments == []
                 else if id in seen then o.errors == [DuplicateError(c, id, lang)]
                 else
                   && (FirstStop(spiResults) == |spiResults| ==> o.errors == [])
                   && (FirstStop(spiResults) < |spiResults| ==>
                         spiResults[FirstStop(spiResults)].SpiFailure?
                         && o.errors == [FailureError(id, spiResults[FirstStop(spiResults)].errorMessage, lang)])
                   && o.responseAttachments == Collected(spiResults[..FirstStop(spiResults)])
  {
    var k := FirstStop(spiResults);
    match IsNotPingMessage(cfg) {
      case Threw =>
      case Returned(notPing) =>
        if notPing && um.messageInfo.messageId !in seen && k < |spiResults| {
          assert !spiResults[k].SpiSuccess?;
        }
    }
  }

  /** A message that goes on is the first user message with accepted
      properties under the state's configuration, the stores are its
      provisioning, and its errors and attachments are as
      `DispatchedContinues` states. */
  lemma {:induction false} ContinuedMessage(version: SoapVersion, c: ErrorCatalogue, state: MessageState, stores: Stores,
                                            seen: set<string>, spiResults: seq<SpiResult>, lang: string)
    requires ValidCatalogue(c)
    ensures var o := UserMessageStage(version, c, state, seen, spiResults, lang);
            o.Continue? ==>
              && FirstUserMessage(state) == Some(o.userMessage)
              && PropertiesAccepted(o.userMessage.messageProperties)
              && state.pmodeConfig == Some(o.cfg)
              && StoresAfter(version, state, stores)
                 == Provision(stores, o.cfg.id, state.initiatorId, state.responderId, state.usedCertificate,
                              o.userMessage.partyInfo)
              && o == Dispatched(c, o.userMessage, o.cfg, seen, spiResults, lang)
  {
    match Preparation(version, state) {
      case Refused(_) =>
      case Ready(um) =>
        if state.pmodeConfig.Some? {
          DispatchedContinues(c, um, state.pmodeConfig.value, seen, spiResults, lang);
        }
    }
  }

  /** The response `PlanResponse` calls for (lines 559-732): an Error
      signal under a new message ID; nothing when errors are suppressed or
      no reply is due; a Receipt under a new message ID referring to the
      user message; or the two-way User Message under a new message ID,
      signed iff the Leg2 algorithms are recognised, as XML without response
      attachments and otherwise as MIME with the MIME headers moved to the
      HTTP response. Building the two-way message, or a MIME message for an
      unrecognised encryption algorithm, fails with an internal error. */
  ghost predicate FollowsPlan(r: Response, version: SoapVersion, errors: seq<Ebms3Error>, cfg: Option<PModeConfig>,
                              userMessage: Option<UserMessage>, responseAttachments: seq<Attachment>,
                              issued: set<string>, tables: AlgorithmTables, validResponseType: bool,
                              mimeHeaders: seq<MimeHeader>)
  {
    match PlanResponse(errors != [], cfg, validResponseType)
    case Threw => false
    case Returned(ErrorSignal) => IsErrorReply(r, version, errors, issued)
    case Returned(ErrorSuppressed) => r == NoContent
    case Returned(NoReply) => r == NoContent
    case Returned(ReceiptSignal(nonRepudiation)) =>
      && userMessage.Some?
      && r.ReceiptResponse? && r.version == version && r.nonRepudiation == nonRepudiation
      && r.messageInfo.refToMessageId.None? && r.messageInfo.messageId !in issued
      && r.refToMessageId == userMessage.value.messageInfo.messageId
    case Returned(UserMessageReply(leg2)) =>
      && userMessage.Some?
      && if TwoWayResponseThrows(userMessage.value) || (responseAttachments != [] && MimeMessageFor(leg2, tables).None?)
         then r == InternalError
         else
           && r.UserMessageResponse?
           && r.message.messageInfo.messageId !in issued
           && IsTwoWayResponse(r.message, userMessage.value, r.message.messageInfo.messageId, responseAttachments)
           && r.signed == SignsResponse(leg2, tables)
           && r.body == if responseAttachments == [] then XmlBody(version)
                        else MimeBody(MimeMessageFor(leg2, tables).value, AsHttpHeaders(FirstOfEachName(mimeHeaders)))
  }

  /** What following the plan means: errors give the Error signal iff
      the PMode reports them and nothing otherwise; without errors nothing
      is sent exactly when no reply is due, a Receipt exactly when one is
      due for a one-way exchange, and a User Message only when one is due,
      unless building it fails; no plan yields a bad request. */
  lemma PlannedResponses(r: Response, version: SoapVersion, errors: seq<Ebms3Error>, cfg: Option<PModeConfig>,
                         userMessage: Option<UserMessage>, responseAttachments: seq<Attachment>,
                         issued: set<string>, tables: AlgorithmTables, validResponseType: bool,
                         mimeHeaders: seq<MimeHeader>)
    requires FollowsPlan(r, version, errors, cfg, userMessage, responseAttachments, issued, tables, validResponseType,
                         mimeHeaders)
    ensures errors != [] ==>
              if IsSendErrorAsResponse(cfg) then IsErrorReply(r, version, errors, issued) else r == NoContent
    ensures errors == [] ==> (r.NoContent? <==> PlanResponse(false, cfg, validResponseType) == Returned(NoReply))
    ensures errors == [] ==>
              (r.ReceiptResponse? <==> IsSendReceiptAsResponse(cfg) && cfg.Some? && cfg.value.mep == OneWay)
    ensures r.ReceiptResponse? ==> r.nonRepudiation == IsSendNonRepudiationInformation(cfg)
    ensures r.UserMessageResponse? || r.InternalError? ==>
              && errors == [] && IsSendReceiptAsResponse(cfg) && cfg.Some? && cfg.value.mep == TwoWay
              && cfg.value.leg2.Some? && validResponseType
    ensures r.UserMessageResponse? ==> r.signed == SignsResponse(cfg.value.leg2.value, tables)
    ensures !r.BadRequest?
  {
  }

  /** The response stage (lines 559-732) for the errors collected; without
      errors the configuration and the user message are known. */
  method Respond(version: SoapVersion, errors: seq<Ebms3Error>, cfg: Option<PModeConfig>, userMessage: Option<UserMessage>,
                 responseAttachments: seq<Attachment>, ids: MessageIdGenerator, tables: AlgorithmTables,
                 validResponseType: bool, mimeHeaders: seq<MimeHeader>)
    returns (r: Response)
    requires errors == [] ==> cfg.Some? && userMessage.Some?
    requires ids.Valid()
    modifies ids
    ensures ids.Valid() && old(ids.Issued) <= ids.Issued
    ensures FollowsPlan(r, version, errors, cfg, userMessage, responseAttachments, old(ids.Issued), tables,
                        validResponseType, mimeHeaders)
  {
    var plan := PlanResponse(errors != [], cfg, validResponseType);
    match plan {
      case Threw =>
        assert false;
      case Returned(ErrorSignal) =>
        var id := ids.Next();
        return ErrorResponse(version, SignalMessage(Some(MessageInfo(id, None)), errors));
      case Returned(ErrorSuppressed) =>
        return NoContent;
      case Returned(NoReply) =>
        return NoContent;
      case Returned(ReceiptSignal(nonRepudiation)) =>
        var id := ids.Next();
        return ReceiptResponse(version, MessageInfo(id, None), userMessage.value.messageInfo.messageId, nonRepudiation);
      case Returned(UserMessageReply(leg2)) =>
        var id := ids.Next();
        var built := BuildTwoWayResponse(userMessage.value, id, responseAttachments);
        if built.Threw? {
          return InternalError;
        }
        var signed := SignsResponse(leg2, tables);
        if responseAttachments == [] {
          return UserMessageResponse(built.value, signed, XmlBody(version));
        }
        var kind := MimeMessageFor(leg2, tables);
        if kind.None? {
          return InternalError;
        }
        var mime := new MimeMessage(kind.value, mimeHeaders);
        var httpHeaders := MoveHeadersToResponse(mime);
        return UserMessageResponse(built.value, signed, MimeBody(kind.value, httpHeaders));
    }
  }

  /** A receipt or a response user message answers the received user
      message under its PMode: a receipt only for a one-way exchange, a
      response user message only for a two-way one with a second leg,
      referring to the request under a newly issued ID. */
  ghost predicate AnswersUserMessage(r: Response, state: MessageState, issued: set<string>, tables: AlgorithmTables)
    requires r.ReceiptResponse? || r.UserMessageResponse?
  {
    && state.pmodeConfig.Some? && FirstUserMessage(state).Some?
    && var cfg := state.pmodeConfig.value;
       var request := FirstUserMessage(state).value;
       if r.ReceiptResponse? then
         && cfg.mep == OneWay
         && r.nonRepudiation == IsSendNonRepudiationInformation(state.pmodeConfig)
         && r.refToMessageId == request.messageInfo.messageId
       else
         && cfg.mep == TwoWay && cfg.leg2.Some?
         && r.message.messageInfo.refToMessageId == Some(request.messageInfo.messageId)
         && r.message.messageInfo.messageId !in issued
         && r.message.collaborationInfo == request.collaborationInfo
         && r.signed == SignsResponse(cfg.leg2.value, tables)
         && (r.body.MimeBody? <==> r.message.payload != [])
  }

  /** The answer to a message whose headers were accepted (lines
      359-732): a halted user-message stage gives its response; a message
      without errors is refused when the configured profile does not exist
      or rejects it (lines 520-557); otherwise the response follows the plan
      for the errors collected. */
  ghost predicate AnswersAcceptedMessage(r: Response, version: SoapVersion, c: ErrorCatalogue, state: MessageState,
                                         seen: set<string>, spiResults: seq<SpiResult>, profile: ProfileCheck,
                                         issued: set<string>, tables: AlgorithmTables, validResponseType: bool,
                                         mimeHeaders: seq<MimeHeader>, lang: string)
    requires ValidCatalogue(c)
  {
    match UserMessageStage(version, c, state, seen, spiResults, lang)
    case Halt(response) => r == response
    case Continue(um, cfg, errors, atts) =>
      if errors == [] && profile.ProfileNotFound? then r == BadRequest(UnknownProfile(profile.name))
      else if errors == [] && profile.ProfileRejects? then r == BadRequest(ProfileValidationFailed(profile.name))
      else FollowsPlan(r, version, errors, Some(cfg), Some(um), atts, issued, tables, validResponseType, mimeHeaders)
  }

  /** What the answer to an accepted message means: it is never one of the
      header stage's refusals; a thrown processor is the first stop; a
      ping is never halted by a processor; and a Receipt or a User Message
      answers the first user message under its PMode and a new ID. */
  lemma {:induction false} AcceptedMessageAnswers(r: Response, version: SoapVersion, c: ErrorCatalogue,
                                                  state: MessageState, seen: set<string>, spiResults: seq<SpiResult>,
                                                  profile: ProfileCheck, issued: set<string>, tables: AlgorithmTables,
                                                  validResponseType: bool, mimeHeaders: seq<MimeHeader>, lang: string)
    requires ValidCatalogue(c)
    requires AnswersAcceptedMessage(r, version, c, state, seen, spiResults, profile, issued, tables, validResponseType,
                                    mimeHeaders, lang)
    ensures r.BadRequest? ==>
              !(r.reason.MissingHeader? || r.reason.MissingBody? || r.reason.UnprocessedMustUnderstand?)
    ensures r.BadRequest? && r.reason.ProcessorThrew? ==>
              var k := FirstStop(spiResults);
              k == r.reason.index < |spiResults| && (spiResults[k].SpiNoResult? || spiResults[k].SpiThrows?)
    ensures state.pmodeConfig.Some? && IsPing(state.pmodeConfig.value) ==> !(r.BadRequest? && r.reason.ProcessorThrew?)
    ensures r.ReceiptResponse? || r.UserMessageResponse? ==> AnswersUserMessage(r, state, issued, tables)
  {
    var o := UserMessageStage(version, c, state, seen, spiResults, lang);
    UserMessageStageHalts(version, c, state, seen, spiResults, lang);
    RegistrationIsTheUserMessageId(version, c, state, seen, spiResults, lang);
    ContinuedMessage(version, c, state, Stores(map[], map[], []), seen, spiResults, lang);
    if o.Continue? && !(o.errors == [] && (profile.ProfileNotFound? || profile.ProfileRejects?)) {
      PlannedResponses(r, version, o.errors, Some(o.cfg), Some(o.userMessage), o.responseAttachments, issued, tables,
                       validResponseType, mimeHeaders);
    }
  }

  /** Lines 359-732 once the headers are accepted: the user message stage,
      the profile check for an error-free message (lines 520-557), then the
      response stage. */
  method HandleAcceptedMessage(version: SoapVersion, c: ErrorCatalogue, state: MessageState, stores: StoreManager,
                               ids: MessageIdGenerator, spiResults: seq<SpiResult>, profile: ProfileCheck,
                               tables: AlgorithmTables, validResponseType: bool, mimeHeaders: seq<MimeHeader>,
                               lang: string)
    returns (r: Response)
    requires ValidCatalogue(c) && ids.Valid()
    requires Distinct(state.originalAttachments)
    requires state.decryptedAttachments.Some? ==> Distinct(state.decryptedAttachments.value)
    modifies stores, ids, set a | a in WorkingAttachments(state)
    ensures ids.Valid() && old(ids.Issued) <= ids.Issued
    ensures AnswersAcceptedMessage(r, version, c, state, old(stores.seenMessageIds), spiResults, profile, old(ids.Issued),
                                   tables, validResponseType, mimeHeaders, lang)
    ensures stores.Value() == StoresAfter(version, state, old(stores.Value()))
    ensures stores.seenMessageIds == SeenAfter(version, state, old(stores.seenMessageIds))
    ensures PreparedAttachments(state)
  {
    var outcome := ProcessUserMessage(version, c, state, stores, spiResults, lang);
    if outcome.Halt? {
      return outcome.response;
    }
    if outcome.errors == [] {
      match profile {
        case ProfileNotFound(name) => return BadRequest(UnknownProfile(name));
        case ProfileRejects(name) => return BadRequest(ProfileValidationFailed(name));
        case NoProfileConfigured =>
        case ProfileAccepts =>
      }
    }
    r := Respond(version, outcome.errors, state.pmodeConfig, Some(outcome.userMessage), outcome.responseAttachments,
                 ids, tables, validResponseType, mimeHeaders);
  }

  /** The answer of the header stage: a missing Header, then a missing
      Body, is refused; pipeline errors are answered with the Error signal
      iff the PMode reports errors, otherwise with nothing; a
      mustUnderstand header left unprocessed is refused, naming the first
      such header in document order. */
  ghost predicate HeaderStageAnswer(r: Response, doc: SoapDocument, version: SoapVersion, c: ErrorCatalogue,
                                    registry: seq<Registration>, cfg: Option<PModeConfig>, issued: set<string>)
    requires ValidCatalogue(c)
  {
    && (HeaderOf(doc, version).None? ==> r == BadRequest(MissingHeader))
    && (HeaderOf(doc, version).Some? && BodyOf(doc, version).None? ==> r == BadRequest(MissingBody))
    && (HeaderOf(doc, version).Some? && BodyOf(doc, version).Some? ==>
          var children := HeaderOf(doc, version).value;
          var p := Pipeline(c, registry, HeaderQNames(children));
          && (p.errors != [] ==>
                if IsSendErrorAsResponse(cfg) then IsErrorReply(r, version, p.errors, issued) else r == NoContent)
          && (p.errors == [] && (exists i :: LeftUnprocessed(children, version, p.processed, i)) ==>
                exists i :: && LeftUnprocessed(children, version, p.processed, i)
                            && r == BadRequest(UnprocessedMustUnderstand(children[i].qname))
                            && forall j :: 0 <= j < i ==> !LeftUnprocessed(children, version, p.processed, j)))
  }

  /** The handler's decisive properties, from its stage-by-stage answer:
      a header-stage refusal means the headers did not pass; only the user
      message's ID is ever registered and a ping registers nothing and is
      never halted by a processor; a thrown processor is the first stop; a
      Receipt or a User Message answers the user message. */
  lemma {:induction false} HandledMessageSummary(r: Response, doc: SoapDocument, version: SoapVersion, c: ErrorCatalogue,
                                                 registry: seq<Registration>, state: MessageState,
                                                 seenBefore: set<string>, seenAfter: set<string>,
                                                 spiResults: seq<SpiResult>, profile: ProfileCheck, issued: set<string>,
                                                 tables: AlgorithmTables, validResponseType: bool,
                                                 mimeHeaders: seq<MimeHeader>, lang: string)
    requires ValidCatalogue(c)
    requires HeaderStageAnswer(r, doc, version, c, registry, state.pmodeConfig, issued)
    requires !HeadersPass(doc, version, c, registry) ==> seenAfter == seenBefore
    requires HeadersPass(doc, version, c, registry) ==>
               && AnswersAcceptedMessage(r, version, c, state, seenBefore, spiResults, profile, issued, tables,
                                         validResponseType, mimeHeaders, lang)
               && seenAfter == SeenAfter(version, state, seenBefore)
    ensures r == BadRequest(MissingHeader) || r == BadRequest(MissingBody)
            || (r.BadRequest? && r.reason.UnprocessedMustUnderstand?)
            ==> !HeadersPass(doc, version, c, registry)
    ensures seenAfter == seenBefore
            || (FirstUserMessage(state).Some? && seenAfter == seenBefore + {FirstUserMessage(state).value.messageInfo.messageId})
    ensures state.pmodeConfig.Some? && IsPing(state.pmodeConfig.value) ==>
              seenAfter == seenBefore && !(r.BadRequest? && r.reason.ProcessorThrew?)
    ensures r.BadRequest? && r.reason.ProcessorThrew? ==>
              var k := FirstStop(spiResults);
              k == r.reason.index < |spiResults| && (spiResults[k].SpiNoResult? || spiResults[k].SpiThrows?)
    ensures r.ReceiptResponse? || r.UserMessageResponse? ==> AnswersUserMessage(r, state, issued, tables)
  {
    if HeadersPass(doc, version, c, registry) {
      AcceptedMessageAnswers(r, version, c, state, seenBefore, spiResults, profile, issued, tables, validResponseType,
                             mimeHeaders, lang);
      RegistrationIsTheUserMessageId(version, c, state, seenBefore, spiResults, lang);
    }
  }

  /** One SOAP message, `_handleSOAPMessage` as a whole: the header stage;
      after a clean pipeline the user-message stage and, when still without
      errors, the profile check; then the response. */
  method HandleSoapMessage(doc: SoapDocument, version: SoapVersion, c: ErrorCatalogue, registry: seq<Registration>,
                           state: MessageState, stores: StoreManager, ids: MessageIdGenerator,
                           spiResults: seq<SpiResult>, profile: ProfileCheck, tables: AlgorithmTables,
                           validResponseType: bool, mimeHeaders: seq<MimeHeader>, lang: string)
    returns (r: Response)
    requires ValidCatalogue(c) && ids.Valid()
    requires Distinct(state.originalAttachments)
    requires state.decryptedAttachments.Some? ==> Distinct(state.decryptedAttachments.value)
    modifies stores, ids, set a | a in WorkingAttachments(state)
    ensures ids.Valid() && old(ids.Issued) <= ids.Issued
    // a missing Header or Body, pipeline errors and an unprocessed mustUnderstand header bypass every later stage
    ensures HeaderStageAnswer(r, doc, version, c, registry, state.pmodeConfig, old(ids.Issued))
    ensures !HeadersPass(doc, version, c, registry) ==>
              stores.Value() == old(stores.Value()) && stores.seenMessageIds == old(stores.seenMessageIds)
    // an accepted message gets the answer of the later stages
    ensures HeadersPass(doc, version, c, registry) ==>
              && AnswersAcceptedMessage(r, version, c, state, old(stores.seenMessageIds), spiResults, profile,
                                        old(ids.Issued), tables, validResponseType, mimeHeaders, lang)
              && stores.Value() == StoresAfter(version, state, old(stores.Value()))
              && stores.seenMessageIds == SeenAfter(version, state, old(stores.seenMessageIds))
    ensures r == BadRequest(MissingHeader) || r == BadRequest(MissingBody)
            || (r.BadRequest? && r.reason.UnprocessedMustUnderstand?)
            ==> !HeadersPass(doc, version, c, registry)
    // only the user message's ID is ever registered, and a ping is never registered
    ensures stores.seenMessageIds == old(stores.seenMessageIds)
            || (FirstUserMessage(state).Some?
                && stores.seenMessageIds == old(stores.seenMessageIds) + {FirstUserMessage(state).value.messageInfo.messageId})
    ensures state.pmodeConfig.Some? && IsPing(state.pmodeConfig.value) ==>
              stores.seenMessageIds == old(stores.seenMessageIds) && !(r.BadRequest? && r.reason.ProcessorThrew?)
    ensures r.BadRequest? && r.reason.ProcessorThrew? ==>
              var k := FirstStop(spiResults);
              k == r.reason.index < |spiResults| && (spiResults[k].SpiNoResult? || spiResults[k].SpiThrows?)
    ensures r.ReceiptResponse? || r.UserMessageResponse? ==> AnswersUserMessage(r, state, old(ids.Issued), tables)
  {
    ghost var seen := stores.seenMessageIds;
    ghost var issued := ids.Issued;
    var headerOutcome := CheckHeaders(doc, version, c, registry);
    match headerOutcome {
      case HeaderRejected(reason) =>
        r := BadRequest(reason);
      case HeaderErrors(errors) =>
        r := Respond(version, errors, state.pmodeConfig, None, [], ids, tables, validResponseType, mimeHeaders);
        PlannedResponses(r, version, errors, state.pmodeConfig, None, [], issued, tables, validResponseType, mimeHeaders);
      case HeadersAccepted =>
        r := HandleAcceptedMessage(version, c, state, stores, ids, spiResults, profile, tables, validResponseType,
                                   mimeHeaders, lang);
    }
    HandledMessageSummary(r, doc, version, c, registry, state, seen, stores.seenMessageIds, spiResults, profile, issued,
                          tables, validResponseType, mimeHeaders, lang);
  }
}
