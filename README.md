# AS4 receiver core, modelled in Dafny

This project models the inbound side of an AS4 (OASIS ebMS 3.0 Core, AS4 profile) message service handler:
- the decision logic that `AS4Servlet` applies to one incoming HTTP POST;
- three small client/domain types: the client that builds an AS4 Error message, the AS4 Error message itself, and the built-message value.

The receiver:
- takes the request's Content-Type and framing;
- determines the SOAP version;
- finds the SOAP Header and Body;
- runs the registered SOAP header processors in registry order and stops at the first failure;
- enforces mustUnderstand;
- decompresses attachments and correlates their MIME types with the PartInfo entries of the user message;
- validates the mandatory `originalSender`/`finalRecipient` message properties;
- auto-provisions partners and PModes;
- skips "ping" messages, detects duplicates and calls the business message processors in order;
- answers with an Error signal, a Receipt, a two-way User Message or nothing, as the PMode's policy and its defaults decide.

Modules, one per component:

| file | module | what it holds |
|---|---|---|
| common.dfy | `Common` | `Option` (Java null), `Eval` (a value or a thrown exception), `Result`, `hasText`, `trimStart`, `String.contains` |
| soap.dfy | `Soap` | SOAP 1.1/1.2 constants, Header/Body lookup, version from media type or namespace |
| ebms3.dfy | `Ebms3` | the ebMS 3.0 header types and the predefined-error catalogue |
| pmodes.dfy | `PModes` | PMode configuration, legs, the ping test and the policy defaults |
| message_ids.dfy | `MessageIds` | a generator of never-repeated message IDs |
| header_pipeline.dfy | `HeaderPipeline` | header extraction, the processor pipeline, the mustUnderstand gate |
| attachments.dfy | `Attachments` | attachment decompression and MIME-type correlation |
| message_properties.dfy | `MessageProperties` | mandatory-property validation and the two-way response's properties |
| provisioning.dfy | `Provisioning` | partner/PMode stores, auto-provisioning, the duplicate registry |
| business_processors.dfy | `BusinessProcessors` | ordered invocation of the message processors |
| response_synthesis.dfy | `ResponseSynthesis` | the response decision, the two-way response, MIME header promotion |
| receiver.dfy | `Receiver` | `_handleSOAPMessage` as three stages and their composition |
| transport.dfy | `Transport` | the Content-Type / SOAP version decisions of `handleRequest` |
| as4_error_message.dfy | `ErrorMessages` | `AS4ErrorMessage` |
| client_built_message.dfy | `ClientBuiltMessages` | `AS4ClientBuiltMessage` |
| client_error_message.dfy | `ClientErrorMessages` | `AS4ClientErrorMessage` |

How collaborators are modelled:
- Each header processor is a registration of a QName with its verdict.
- The message state the processors fill in is an input value (`Receiver.MessageState`).
- Each business processor is represented by its result.
- The PMode configuration, partner and PMode stores and the duplicate registry are the fields of `Provisioning.StoreManager`.
- The following are parameters:
  - the predefined ebMS error catalogue;
  - the crypto algorithm tables;
  - the MEP/binding verdict on a User Message response;
  - the AS4 profile's verdict;
  - the headers of the generated MIME message.
- Java exceptions and null dereferences are `Eval.Threw`. They end the request as an internal server error, because `handleRequest` catches every `Throwable`.

Behaviours of the code that a reader might not expect, each modelled as written:
- A business processor that throws (or returns no result object) ends the request with a Bad Request naming the processor (`AS4Servlet.java:508-516`); the exception is caught there, so it never reaches the internal-error handler of `handleRequest`.
- A message whose PMode configuration ID is not in the configuration store provisions nothing and goes on (`AS4Servlet.java:428`); it is not refused.
- When both partners are unknown, only the initiator is created per request (`AS4Servlet.java:437-446`); the responder is created by the next message.
- The two-way response does not swap the `originalSender`/`finalRecipient` properties, despite the comment at `AS4Servlet.java:638`. The renames at `AS4Servlet.java:655-656` give each property back the name it already had. The response therefore carries the request's last `originalSender` property and then its last `finalRecipient` property, both unchanged (`MessageProperties.ResponseProperties`).
- A ping is only exempt from duplicate detection and the processors. A two-way ping configuration still gets a User Message response (with no payload), because the response decision (`AS4Servlet.java:559-611`) does not look at the ping test, which only guards the processors (`AS4Servlet.java:456`).
- A multipart request without a boundary is first marked as a Bad Request about the boundary. That verdict is then replaced by "Failed to parse incoming message!" (`AS4Servlet.java:1052-1057`, `1117-1121`), because no document was read.
- In a multipart request the SOAP version comes from the first MIME part's type (`AS4Servlet.java:1081-1089`) and then from the document namespace. The outer Content-Type is only consulted for plain requests (`AS4Servlet.java:1104-1114`, `1127-1133`).

## Model

| member | source | states |
|---|---|---|
| Common.TrimStart | ph-as4-servlet/src/main/java/com/helger/as4/servlet/AS4Servlet.java:210 | removes exactly one leading `attachment=`-style prefix when present, else returns the ID unchanged |
| Soap.HeaderOf | ph-as4-servlet/src/main/java/com/helger/as4/servlet/AS4Servlet.java:248-256 | the Header is found iff the document's envelope namespace is the version's and it has a Header child |
| Soap.BodyOf | ph-as4-servlet/src/main/java/com/helger/as4/servlet/AS4Servlet.java:258-266 | the Body is found iff the envelope namespace is the version's and it has a Body child |
| Soap.VersionForMimeType | ph-as4-servlet/src/main/java/com/helger/as4/servlet/AS4Servlet.java:1113-1114 | the version found has that media type; no version is found only when no version has it |
| Soap.VersionForNamespace | ph-as4-servlet/src/main/java/com/helger/as4/servlet/AS4Servlet.java:1127-1133 | the version found has that envelope namespace; none is found only when no version has it |
| Soap.VersionLookupsInvertNames | ph-as4-servlet/src/main/java/com/helger/as4/servlet/AS4Servlet.java:1088-1089 | looking up a version's own media type or namespace yields that version |
| Ebms3.PredefinedOrNull | ph-as4-servlet/src/main/java/com/helger/as4/servlet/AS4Servlet.java:324 | a predefined error exists iff the code is in the catalogue, and it carries that code |
| MessageIds.Decimal | ph-as4-servlet/src/main/java/com/helger/as4/servlet/AS4Servlet.java:613 | a generated ID is never empty |
| MessageIds.DecimalInjective | ph-as4-servlet/src/main/java/com/helger/as4/servlet/AS4Servlet.java:613 | different counters give different IDs |
| MessageIds.MessageIdGenerator.Next | ph-as4-servlet/src/main/java/com/helger/as4/servlet/AS4Servlet.java:613 | every new message ID is non-empty and was never issued before |
| PModes.IsNotPingMessage | ph-as4-servlet/src/main/java/com/helger/as4/servlet/AS4Servlet.java:791-802 | a message is a ping iff Leg1's business info names the reserved test action and service; a configuration without Leg1 throws |
| PModes.IsSendNonRepudiationInformation | ph-as4-servlet/src/main/java/com/helger/as4/servlet/AS4Servlet.java:812-821 | true iff Leg1 security defines non-repudiation as true; default false |
| PModes.IsSendErrorAsResponse | ph-as4-servlet/src/main/java/com/helger/as4/servlet/AS4Servlet.java:830-842 | false iff Leg1 error handling defines reportAsResponse as false; default true |
| PModes.IsSendReceiptAsResponse | ph-as4-servlet/src/main/java/com/helger/as4/servlet/AS4Servlet.java:851-864 | true when config, Leg1 or Leg1 security is missing; otherwise true iff the reply pattern is RESPONSE (an undefined pattern gives false) |
| PModes.PModeMatchesItsOwnIds | ph-as4-servlet/src/main/java/com/helger/as4/servlet/AS4Servlet.java:972-979 | a PMode matches iff its initiator ID, responder ID and configuration ID all equal the given ones; the parties' ID types and roles play no part |
| HeaderPipeline.SoapHeader.constructor | ph-as4-servlet/src/main/java/com/helger/as4/servlet/AS4Servlet.java:194 | a new header is not yet processed |
| HeaderPipeline.ExtractAllHeaders | ph-as4-servlet/src/main/java/com/helger/as4/servlet/AS4Servlet.java:185-196 | one fresh, distinct, unprocessed header per Header child in document order, flagged mustUnderstand iff the attribute equals the version's "true" |
| HeaderPipeline.FirstIndexOf | ph-as4-servlet/src/main/java/com/helger/as4/servlet/AS4Servlet.java:285 | the first header with the processor's QName, or none when no header has it |
| HeaderPipeline.ConvertError | ph-as4-servlet/src/main/java/com/helger/as4/servlet/AS4Servlet.java:322-336 | a known code gives the predefined error; an unknown code gives an error copying code, severity, text and field name |
| HeaderPipeline.ConvertErrors | ph-as4-servlet/src/main/java/com/helger/as4/servlet/AS4Servlet.java:322-336 | every processor error is converted, in order |
| HeaderPipeline.RunHeaderPipeline | ph-as4-servlet/src/main/java/com/helger/as4/servlet/AS4Servlet.java:277-341 | the loop marks in place exactly the headers the pipeline specification marks, and returns its errors |
| HeaderPipeline.PipelineStopsAtFirstFailure | ph-as4-servlet/src/main/java/com/helger/as4/servlet/AS4Servlet.java:311-339 | the errors are exactly the converted errors of the first visited failing processor, and only the successful registrations before it mark headers |
| HeaderPipeline.PipelineWithoutFailure | ph-as4-servlet/src/main/java/com/helger/as4/servlet/AS4Servlet.java:300-310 | without a failing processor there are no errors, and every registered QName present in the message marks its first header |
| HeaderPipeline.PipelineMarksOnlyRegisteredSuccesses | ph-as4-servlet/src/main/java/com/helger/as4/servlet/AS4Servlet.java:300-310 | a header is marked only when some processor for its QName succeeded on it |
| HeaderPipeline.UnregisteredHeaderStaysUnprocessed | ph-as4-servlet/src/main/java/com/helger/as4/servlet/AS4Servlet.java:285-292 | a header whose QName no processor is registered for stays unprocessed |
| HeaderPipeline.FindUnprocessedMustUnderstand | ph-as4-servlet/src/main/java/com/helger/as4/servlet/AS4Servlet.java:350-357 | none iff every mustUnderstand header is processed; otherwise the QName of the first one that is not |
| Attachments.FindPart | ph-as4-servlet/src/main/java/com/helger/as4/servlet/AS4Servlet.java:211-212 | the first PartInfo whose href contains the ID; throws on a PartInfo without href met first |
| Attachments.FirstNamed | ph-as4-servlet/src/main/java/com/helger/as4/servlet/AS4Servlet.java:215-217 | the first part property named MimeType, or none if no property has that name |
| Attachments.CorrelateTakesFirstPartsMimeType | ph-as4-servlet/src/main/java/com/helger/as4/servlet/AS4Servlet.java:210-222 | the new MIME type is the first MimeType property of the first PartInfo referring to the ID without `attachment=` |
| Attachments.UnreferencedAttachmentKeepsMimeType | ph-as4-servlet/src/main/java/com/helger/as4/servlet/AS4Servlet.java:213-221 | with no referring PartInfo, or no MimeType property on it, the MIME type is kept |
| Attachments.DecompressAttachments | ph-as4-servlet/src/main/java/com/helger/as4/servlet/AS4Servlet.java:198-225 | throws iff some attachment with a compression mode throws on correlation; every attachment before the first such one that has a mode gets a decompressing source and its correlated MIME type, the throwing one only the source, and all others (no mode, or after the throw) are untouched |
| MessageProperties.LastNamed | ph-as4-servlet/src/main/java/com/helger/as4/servlet/AS4Servlet.java:902-909 | the last property with the name, none if no property has it |
| MessageProperties.CheckOriginalSenderAndFinalRecipient | ph-as4-servlet/src/main/java/com/helger/as4/servlet/AS4Servlet.java:897-920 | null iff the last originalSender and the last finalRecipient both have text; otherwise names originalSender first |
| MessageProperties.ValidateMessageProperties | ph-as4-servlet/src/main/java/com/helger/as4/servlet/AS4Servlet.java:388-412 | the problem reported is exactly `PropertyProblemOf` of the properties |
| MessageProperties.PropertyProblemOf | ph-as4-servlet/src/main/java/com/helger/as4/servlet/AS4Servlet.java:388-412 | rejects, in order: no properties element, an empty list, missing originalSender, missing finalRecipient; no problem exactly when the properties are accepted |
| MessageProperties.ResponseProperties | ph-as4-servlet/src/main/java/com/helger/as4/servlet/AS4Servlet.java:638-659 | the response properties are the request's last originalSender then last finalRecipient, unchanged; a missing one throws |
| Provisioning.CreateOrUpdatePartner | ph-as4-servlet/src/main/java/com/helger/as4/servlet/AS4Servlet.java:875-885 | stores the partner under its ID with the given certificate and changes no other entry |
| Provisioning.EnsurePModeIsPresent | ph-as4-servlet/src/main/java/com/helger/as4/servlet/AS4Servlet.java:933-957 | adds the From/To PMode exactly when no PMode binds the initiator, responder and configuration |
| Provisioning.ProvisionEffects | ph-as4-servlet/src/main/java/com/helger/as4/servlet/AS4Servlet.java:428-450 | an unknown configuration changes nothing; a missing initiator is created with the wire certificate, else a missing responder without; at most one partner per request; existing partners and configurations are kept |
| Provisioning.NewPModeMatches | ph-as4-servlet/src/main/java/com/helger/as4/servlet/AS4Servlet.java:942-953 | the created PMode binds From as initiator and To as responder to the configuration |
| Provisioning.ProvisionConverges | ph-as4-servlet/src/main/java/com/helger/as4/servlet/AS4Servlet.java:428-450 | on first contact: initiator and PMode first, responder next, then a fixed point |
| Provisioning.RegisterAndCheck | ph-as4-servlet/src/main/java/com/helger/as4/servlet/AS4Servlet.java:459 | reports a duplicate iff the ID was registered, and registers it |
| Provisioning.RegisterAllReportsRepeats | ph-as4-servlet/src/main/java/com/helger/as4/servlet/AS4Servlet.java:459-467 | over a series of deliveries, exactly the repeats of an ID are duplicates |
| Provisioning.StoreManager.ApplyProvisioning | ph-as4-servlet/src/main/java/com/helger/as4/servlet/AS4Servlet.java:423-450 | the stores become the provisioning function of their old value; the duplicate registry is kept |
| Provisioning.StoreManager.EnsurePMode | ph-as4-servlet/src/main/java/com/helger/as4/servlet/AS4Servlet.java:933-957 | the PMode store becomes `EnsurePModeIsPresent` of the old stores |
| Provisioning.StoreManager.RegisterMessageId | ph-as4-servlet/src/main/java/com/helger/as4/servlet/AS4Servlet.java:459 | answers and updates the registry as `RegisterAndCheck` |
| BusinessProcessors.FailureError | ph-as4-servlet/src/main/java/com/helger/as4/servlet/AS4Servlet.java:494-502 | the processor-failure error is EBMS:0004, severity failure, referring to the message, with the processor's text |
| BusinessProcessors.DuplicateError | ph-as4-servlet/src/main/java/com/helger/as4/servlet/AS4Servlet.java:463-466 | the duplicate error is EBMS:0004 referring to the message, with the fixed description |
| BusinessProcessors.FirstStop | ph-as4-servlet/src/main/java/com/helger/as4/servlet/AS4Servlet.java:471-506 | every processor before the stop succeeds, the one at it does not |
| BusinessProcessors.InvokeProcessors | ph-as4-servlet/src/main/java/com/helger/as4/servlet/AS4Servlet.java:470-517 | collects the successes' attachments in order up to the first non-success; a failure gives one error, no result or an exception names the processor |
| ResponseSynthesis.PlanResponse | ph-as4-servlet/src/main/java/com/helger/as4/servlet/AS4Servlet.java:559-611 | with errors: Error signal iff reportAsResponse; without: nothing unless the pattern is RESPONSE, then Receipt for one-way, User Message for two-way with Leg2 and a valid response type |
| ResponseSynthesis.OneWayYieldsOneSignal | ph-as4-servlet/src/main/java/com/helger/as4/servlet/AS4Servlet.java:561-597 | a one-way exchange gets exactly one signal (Error or Receipt) unless the applicable policy is off, never a User Message |
| ResponseSynthesis.BuildTwoWayResponse | ph-as4-servlet/src/main/java/com/helger/as4/servlet/AS4Servlet.java:613-666 | throws iff the request has no properties or lacks the last originalSender or finalRecipient; otherwise a message with the new ID referring to the request, From/To swapped by role and first party ID, the same collaboration info, the last originalSender and finalRecipient values, and the response attachments as payload |
| ResponseSynthesis.MimeMessageFor | ph-as4-servlet/src/main/java/com/helger/as4/servlet/AS4Servlet.java:752-778 | null iff Leg2 security exists with an unrecognised encryption algorithm; plain iff there is no security |
| ResponseSynthesis.RemoveNamed | ph-as4-servlet/src/main/java/com/helger/as4/servlet/AS4Servlet.java:706 | removing a header name removes every header with that name and keeps the rest |
| ResponseSynthesis.FirstOfEachNameCoversAllNames | ph-as4-servlet/src/main/java/com/helger/as4/servlet/AS4Servlet.java:696-707 | every MIME header name reaches the HTTP response |
| ResponseSynthesis.FirstOfEachNameIsSubset | ph-as4-servlet/src/main/java/com/helger/as4/servlet/AS4Servlet.java:696-707 | only headers of the MIME message reach the HTTP response |
| ResponseSynthesis.FirstOfEachNameHasDistinctNames | ph-as4-servlet/src/main/java/com/helger/as4/servlet/AS4Servlet.java:696-707 | no header name is copied twice |
| ResponseSynthesis.SingleLine | ph-as4-servlet/src/main/java/com/helger/as4/servlet/AS4Servlet.java:703 | the HTTP header value has no line break |
| ResponseSynthesis.MoveHeadersToResponse | ph-as4-servlet/src/main/java/com/helger/as4/servlet/AS4Servlet.java:696-707 | the MIME message ends without headers; the HTTP headers are the first header of each name, single-lined, in order |
| Receiver.CheckHeaders | ph-as4-servlet/src/main/java/com/helger/as4/servlet/AS4Servlet.java:248-357 | missing Header, then missing Body, are refused; pipeline errors are returned; otherwise accepted iff no mustUnderstand header is left unprocessed, else the first one is named |
| Receiver.GateReadsDocumentOrder | ph-as4-servlet/src/main/java/com/helger/as4/servlet/AS4Servlet.java:343-357 | the gate over the extracted headers finds nothing exactly when no header child is mustUnderstand and unprocessed; otherwise it names the first such child in document order |
| Receiver.PrepareUserMessage | ph-as4-servlet/src/main/java/com/helger/as4/servlet/AS4Servlet.java:359-412 | the outcome is `Preparation`: no user message or a throwing correlation is an internal error, a decrypted document without Body is refused, rejected properties are refused with their exact problem, and otherwise the first user message is ready; the attachments end decompressed as `DecompressAttachments` states |
| Receiver.DispatchUserMessage | ph-as4-servlet/src/main/java/com/helger/as4/servlet/AS4Servlet.java:414-518 | without a PMode configuration: an internal error and no store change; with one: the stores become its provisioning, the outcome is `Dispatched` over the IDs seen before, and the ID is registered iff the ping test says the message is not a ping |
| Receiver.ProcessUserMessage | ph-as4-servlet/src/main/java/com/helger/as4/servlet/AS4Servlet.java:359-518 | the outcome is `UserMessageStage` over the IDs seen before; the stores and the registry become `StoresAfter` and `SeenAfter`; the attachments end as `PrepareUserMessage` leaves them |
| Receiver.DispatchedHalts | ph-as4-servlet/src/main/java/com/helger/as4/servlet/AS4Servlet.java:414-518 | a halted dispatch is an internal error from the ping test throwing, or a bad request naming the first processor that gave no result or threw |
| Receiver.UserMessageStageHalts | ph-as4-servlet/src/main/java/com/helger/as4/servlet/AS4Servlet.java:359-518 | a halted user-message stage answers with an internal error, a missing decrypted Body, rejected properties or a thrown processor, the last naming the first stop |
| Receiver.InternalErrorCases | ph-as4-servlet/src/main/java/com/helger/as4/servlet/AS4Servlet.java:359-518 | the stage ends in an internal error iff there is no user message, a correlation throws, or a message past the Body and property checks has no configuration or the ping test throws |
| Receiver.RejectedPropertiesChangeNothing | ph-as4-servlet/src/main/java/com/helger/as4/servlet/AS4Servlet.java:388-412 | rejected properties halt the stage and change neither the stores nor the registered IDs |
| Receiver.RegistrationIsTheUserMessageId | ph-as4-servlet/src/main/java/com/helger/as4/servlet/AS4Servlet.java:452-468 | only the user message's own ID is ever registered; a ping registers nothing and no processor halts it |
| Receiver.DispatchedContinues | ph-as4-servlet/src/main/java/com/helger/as4/servlet/AS4Servlet.java:452-518 | a dispatch that goes on keeps message and configuration; a ping has no errors or attachments, a repeated ID only the duplicate error, otherwise the first stop's failure error (if any) and the attachments collected before it |
| Receiver.ContinuedMessage | ph-as4-servlet/src/main/java/com/helger/as4/servlet/AS4Servlet.java:359-518 | a message that goes on is the first user message, with accepted properties, under the state's configuration; the stores are its provisioning and the outcome is its dispatch |
| Receiver.Respond | ph-as4-servlet/src/main/java/com/helger/as4/servlet/AS4Servlet.java:559-732 | the response follows the plan: Error signal or nothing for errors, nothing for no reply, a Receipt with the plan's non-repudiation referring to the user message, or the two-way User Message (`IsTwoWayResponse`) under a fresh ID, signed iff the Leg2 algorithms are recognised, as XML or as MIME with the promoted headers; a failing build is an internal error |
| Receiver.PlannedResponses | ph-as4-servlet/src/main/java/com/helger/as4/servlet/AS4Servlet.java:559-611 | with errors: the Error signal iff errors are reported, else nothing; without: nothing iff no reply is due, a Receipt iff the pattern is RESPONSE for a one-way exchange; a User Message or internal error only for a two-way exchange with Leg2 and a valid response type; never a bad request |
| Receiver.HandleAcceptedMessage | ph-as4-servlet/src/main/java/com/helger/as4/servlet/AS4Servlet.java:359-732 | a halted user-message stage is the answer; an error-free message with an unknown profile or a profile verdict against it is refused naming the profile; otherwise the response follows the plan for the stage's errors, configuration, message and attachments; the stores, registry and attachments end as `ProcessUserMessage` states |
| Receiver.AcceptedMessageAnswers | ph-as4-servlet/src/main/java/com/helger/as4/servlet/AS4Servlet.java:359-732 | an accepted message is never answered with a header-stage refusal; a thrown processor is the first stop; a ping is never halted by a processor; a Receipt or User Message answers the user message under a fresh ID |
| Receiver.HandleSoapMessage | ph-as4-servlet/src/main/java/com/helger/as4/servlet/AS4Servlet.java:248-732 | a missing Header, then Body, is refused; pipeline errors get the Error signal iff reported, else nothing; an unprocessed mustUnderstand header is refused, naming the first such header in document order; none of these changes the stores; accepted headers get `HandleAcceptedMessage`'s answer and store changes |
| Receiver.HandledMessageSummary | ph-as4-servlet/src/main/java/com/helger/as4/servlet/AS4Servlet.java:248-732 | a header-stage refusal means the headers did not pass; only the user message's ID is registered, never for a ping; a thrown processor is the first stop; Receipts and User Messages answer the user message |
| Transport.Classify | ph-as4-servlet/src/main/java/com/helger/as4/servlet/AS4Servlet.java:1024-1143 | missing, then unparsable Content-Type are refused; an unread document is refused naming the framed version, or as unparsable without one; a read document is dispatched iff the framing or its namespace names a version, in that version |
| Transport.MissingBoundaryIsUnparsable | ph-as4-servlet/src/main/java/com/helger/as4/servlet/AS4Servlet.java:1051-1124 | a multipart request without boundary ends as "Failed to parse incoming message!" |
| Transport.MediaTypeTakesPrecedence | ph-as4-servlet/src/main/java/com/helger/as4/servlet/AS4Servlet.java:1104-1115 | a plain request with a SOAP media type is handled in that version whatever the namespace |
| Transport.NamespaceFallback | ph-as4-servlet/src/main/java/com/helger/as4/servlet/AS4Servlet.java:1127-1138 | when the framing names no version, the namespace decides or the request is refused |
| Transport.MultipartUsesFirstPart | ph-as4-servlet/src/main/java/com/helger/as4/servlet/AS4Servlet.java:1058-1121 | a multipart request with a boundary takes its version from the first part's media type, then the document namespace |
| Transport.UnreadPlainDocument | ph-as4-servlet/src/main/java/com/helger/as4/servlet/AS4Servlet.java:1105-1121 | a plain request without a readable document is refused, naming the media type's version when there is one |
| ErrorMessages.DescriptionsAreValid | phase4-lib/src/main/java/com/helger/phase4/messaging/domain/AS4ErrorMessage.java:49-51 | accepts iff no error has a description without text; errors without description are accepted |
| ErrorMessages.AS4ErrorMessage.constructor | phase4-lib/src/main/java/com/helger/phase4/messaging/domain/AS4ErrorMessage.java:39-47 | type ERROR_MESSAGE, the signal message added to the Messaging header and kept |
| ErrorMessages.AS4ErrorMessage.GetEbms3SignalMessage | phase4-lib/src/main/java/com/helger/phase4/messaging/domain/AS4ErrorMessage.java:58-62 | returns the signal message given on construction |
| ErrorMessages.NewErrorMessage | phase4-lib/src/main/java/com/helger/phase4/messaging/domain/AS4ErrorMessage.java:39-52 | refused iff some error description is empty; otherwise a fresh message holding exactly that signal |
| ErrorMessages.Create | phase4-lib/src/main/java/com/helger/phase4/messaging/domain/AS4ErrorMessage.java:73-87 | the signal message holds the given message info and errors unchanged |
| ErrorMessages.CreateWithRef | phase4-lib/src/main/java/com/helger/phase4/messaging/domain/AS4ErrorMessage.java:64-71 | a fresh message ID referring to the given message, then the message-info overload |
| ClientBuiltMessages.Construct | ph-as4-lib/src/main/java/com/helger/as4/client/AS4ClientBuiltMessage.java:34-45 | refuses an empty ID first, then a null entity; a built message's ID is never empty |
| ClientBuiltMessages.FromXmlEntity | ph-as4-lib/src/main/java/com/helger/as4/client/AS4ClientBuiltMessage.java:34-38 | the XML-entity constructor's two checks, in order |
| ClientBuiltMessages.FromMimeEntity | ph-as4-lib/src/main/java/com/helger/as4/client/AS4ClientBuiltMessage.java:40-45 | the MIME-entity constructor's two checks, in order |
| ClientBuiltMessages.GettersReturnConstructorArguments | ph-as4-lib/src/main/java/com/helger/as4/client/AS4ClientBuiltMessage.java:47-58 | the getters return the constructor's ID and entity |
| ClientErrorMessages.MandatoryAttributeProblem | ph-as4-lib/src/main/java/com/helger/as4/client/AS4ClientErrorMessage.java:65-77 | SOAP version, then a non-empty list, then no null element, then a reference with text; none iff all hold |
| ClientErrorMessages.AS4ClientErrorMessage.ErrorMessages | ph-as4-lib/src/main/java/com/helger/as4/client/AS4ClientErrorMessage.java:58-63 | returns the live error list object, not a copy |
| ClientErrorMessages.AS4ClientErrorMessage.AddErrorMessage | ph-as4-lib/src/main/java/com/helger/as4/client/AS4ClientErrorMessage.java:50-56 | appends exactly one error carrying the current reference and keeps the earlier ones |
| ClientErrorMessages.AS4ClientErrorMessage.BuildMessage | ph-as4-lib/src/main/java/com/helger/as4/client/AS4ClientErrorMessage.java:79-102 | a failed check draws no ID; a build that passes the checks draws exactly one fresh ID, even when the Error message then refuses an empty description; when the mandatory attributes are present and no description is empty the build succeeds, drawing a fresh ID and returning an XML entity whose message info has that ID and refers to the reference |

## Left out

- XML, MIME and HTTP plumbing. The model does not include DOM parsing and serialisation, MIME multipart reading and writing, the debug input stream, logging, or the administrator login/logout. It keeps only their outcomes: the parsed Content-Type, the first part's type, whether a document was read, and the headers of the generated MIME message.
- The incoming attachments are taken from the message state. Building them from MIME parts is not part of this model.
- Signing, encryption, decryption and the header processors' internals are left out. Signing is recorded as a flag, and the choice between a plain and an encrypted MIME envelope as `MimeKind`.
- Values that come from code outside this model are parameters:
  - `EEbmsError`'s catalogue;
  - the `ECryptoAlgorithm*` ID tables;
  - `MEPHelper.isValidResponseType`;
  - the AS4 profile's validator;
  - the business processors' results.
- Concurrency of the process-wide stores and the duplicate registry is not modelled; each request runs sequentially against them.
- Message IDs are drawn from a counter instead of random UUIDs. This captures the property that matters: an ID is never issued twice.
- The locale is a language string. `IEbmsError.getAsEbms3Error` is not part of this model: `AddErrorMessage` receives the already-localised error.
- The receipt's own content is not built (`CreateReceiptMessage` is not part of this model). A receipt is represented by its message info, the ID it refers to and the non-repudiation flag.
- The servlet's Error signal is built by `CreateErrorMessage`, which is not part of this model. It is represented as a signal message with a fresh ID and the collected errors, without the empty-description check of the phase4 `AS4ErrorMessage`.
- The "No AS4 P-Mode configuration found!" branch (`AS4Servlet.java:524-527`) is not a separate path in the model, because it cannot be reached. Without a configuration the code dereferences it at line 423 and ends in an internal error. With errors present, the check is skipped.
- A Leg2 without protocol is not modelled: `PModes.Leg` has no protocol. The model therefore does not capture the null dereference at lines 679, 763 and 773.
- The AS4 client's default SOAP version and its setters come from a base class that is not part of this model. The version is a constructor parameter, and the setters are simple assignments. `buildMessage`'s callback hooks and `toString` are left out.
- ResponseSynthesis.SingleLine: `HTTPStringHelper.getUnifiedHTTPHeaderValue` is not part of this model. It is approximated by replacing each CR and LF with a space, and only the absence of line breaks is stated.
- Receiver.HandleSoapMessage: its contract does not repeat the attachments' end state (`PreparedAttachments`) across the header stage. That state is stated by `HandleAcceptedMessage` and `PrepareUserMessage`, which the accepted path calls; on a header-stage refusal no attachment is touched by the code.
- ErrorMessages.NewErrorMessage: the empty-description check is that of the phase4 `AS4ErrorMessage` (phase4-lib). The `com.helger.as4` class of the same name that the client uses is not part of this model; it is assumed to behave the same way. The servlet's own Error signal is not routed through this check (see above).
- ResponseSynthesis.RemoveNamed: header names are compared exactly. JavaMail's `removeHeader` compares names without regard to case, so headers whose names differ only in case are treated as different names here; `FirstOfEachName` has the same limitation.
- PModes.PModeMatchesItsOwnIds: a PMode here always has an initiator and a responder with a string ID. The code compares the IDs with a null-safe equality (`AS4Servlet.java:976-977`), so a PMode without initiator or responder can match a null ID there; such PModes and null IDs are not modelled.
- ClientErrorMessages.AS4ClientErrorMessage.BuildMessage: `MessageHelperMethods.createEbms3MessageInfo` is not part of this model. `MessageInfo` carries only the message ID and the reference; a timestamp or any other field that helper fills in is not modelled.
- Test fixtures and tools in the repository (a mock PMode generator, a test message processor, a decipher command-line tool) are not part of the receiver and are not modelled.
