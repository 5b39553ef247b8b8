/** What the receiver answers: the policy decision between an Error signal,
    a Receipt, a two-way User Message or nothing, and the construction of
    the two-way response. */
module ResponseSynthesis {
  import opened Common
  import opened Ebms3
  import opened PModes
  import opened Attachments
  import opened MessageProperties

  /** The kind of response the policy asks for. */
  datatype ResponsePlan =
    | ErrorSignal                    // errors, reported as response
    | ErrorSuppressed                // errors, but the PMode forbids reporting them
    | ReceiptSignal(nonRepudiation: bool)
    | UserMessageReply(leg2: Leg)
    | NoReply

  /** The response decision of the receiver. With errors: an Error signal iff
      reportAsResponse holds (default true). Without: nothing unless the
      receipt reply pattern is RESPONSE; then a Receipt for one-way MEPs and,
      for two-way MEPs, a User Message when Leg2 exists and a User Message is
      a valid response type. Reaching the MEP without a configuration is a
      null dereference. */
  function PlanResponse(hasErrors: bool, cfg: Option<PModeConfig>, validResponseType: bool): (r: Eval<ResponsePlan>)
    ensures hasErrors ==> (r == Returned(ErrorSignal) <==> IsSendErrorAsResponse(cfg))
    ensures hasErrors ==> (r == Returned(ErrorSuppressed) <==> !IsSendErrorAsResponse(cfg))
    ensures r.Threw? <==> !hasErrors && IsSendReceiptAsResponse(cfg) && cfg.None?
    ensures (exists nr :: r == Returned(ReceiptSignal(nr))) <==>
              !hasErrors && IsSendReceiptAsResponse(cfg) && cfg.Some? && cfg.value.mep == OneWay
    ensures r.Returned? && r.value.ReceiptSignal? ==> r.value.nonRepudiation == IsSendNonRepudiationInformation(cfg)
    ensures r.Returned? && r.value.UserMessageReply? <==>
              !hasErrors && IsSendReceiptAsResponse(cfg) && cfg.Some? && cfg.value.mep == TwoWay
              && cfg.value.leg2.Some? && validResponseType
    ensures r.Returned? && r.value.UserMessageReply? ==> r.value.leg2 == cfg.value.leg2.value
  {
    if hasErrors then
      Returned(if IsSendErrorAsResponse(cfg) then ErrorSignal else ErrorSuppressed)
    else if !IsSendReceiptAsResponse(cfg) then Returned(NoReply)
    else if cfg.None? then Threw
    else if cfg.value.mep.OneWay? then Returned(ReceiptSignal(IsSendNonRepudiationInformation(cfg)))
    else if cfg.value.leg2.Some? && validResponseType then Returned(UserMessageReply(cfg.value.leg2.value))
    else Returned(NoReply)
  }

  /** For a one-way exchange exactly one signal is produced, an Error or a
      Receipt and never both, unless the policy that applies (error
      reporting when there are errors, the receipt pattern when there are
      none) is switched off. */
  lemma OneWayYieldsOneSignal(hasErrors: bool, cfg: PModeConfig, validResponseType: bool)
    requires cfg.mep == OneWay
    ensures var r := PlanResponse(hasErrors, Some(cfg), validResponseType);
            && r.Returned? && !r.value.UserMessageReply?
            && ((r.value.ErrorSignal? || r.value.ReceiptSignal?) <==>
                  (if hasErrors then IsSendErrorAsResponse(Some(cfg)) else IsSendReceiptAsResponse(Some(cfg))))
  {
  }

  /** The user message sent back on Leg2. */
  datatype ResponseUserMessage = ResponseUserMessage(
    messageInfo: MessageInfo,
    partyInfo: PartyInfo,
    collaborationInfo: CollaborationInfo,
    properties: seq<Property>,
    payload: seq<Attachment>)

  /** A response party: the role and the first party ID's value of a
      request party (the ID type is not copied). */
  function ResponseParty(p: Party): Party
  {
    Party(p.role, PartyId(None, p.firstPartyId.value), [])
  }

  /** Building the two-way response dereferences the request's message
      properties and its last originalSender and finalRecipient. */
  predicate TwoWayResponseThrows(request: UserMessage)
  {
    || request.messageProperties.None?
    || LastNamed(request.messageProperties.value, ORIGINAL_SENDER).None?
    || LastNamed(request.messageProperties.value, FINAL_RECIPIENT).None?
  }

  /** `m` is the two-way response to `request` under `newMessageId`: it
      refers to the request, From and To are inverted (role and first party
      ID value), the collaboration info is the request's, the properties are
      the request's last originalSender and last finalRecipient, and the
      payload is `attachments`. */
  predicate IsTwoWayResponse(m: ResponseUserMessage, request: UserMessage, newMessageId: string, attachments: seq<Attachment>)
  {
    && m.messageInfo == MessageInfo(newMessageId, Some(request.messageInfo.messageId))
    && m.partyInfo.from.role == request.partyInfo.to.role
    && m.partyInfo.from.firstPartyId.value == request.partyInfo.to.firstPartyId.value
    && m.partyInfo.to.role == request.partyInfo.from.role
    && m.partyInfo.to.firstPartyId.value == request.partyInfo.from.firstPartyId.value
    && m.collaborationInfo == request.collaborationInfo
    && !TwoWayResponseThrows(request)
    && m.properties == [LastNamed(request.messageProperties.value, ORIGINAL_SENDER).value,
                        LastNamed(request.messageProperties.value, FINAL_RECIPIENT).value]
    && m.payload == attachments
  }

  /** The two-way response to `request` (lines 613-666); it throws exactly
      when a property it dereferences is missing. */
  method BuildTwoWayResponse(request: UserMessage, newMessageId: string, attachments: seq<Attachment>)
    returns (r: Eval<ResponseUserMessage>)
    ensures r.Threw? <==> TwoWayResponseThrows(request)
    ensures r.Returned? ==> IsTwoWayResponse(r.value, request, newMessageId, attachments)
  {
    var info := MessageInfo(newMessageId, Some(request.messageInfo.messageId));
    var partyInfo := PartyInfo(ResponseParty(request.partyInfo.to), ResponseParty(request.partyInfo.from));
    if request.messageProperties.None? {
      return Threw;
    }
    var props := ResponseProperties(request.messageProperties.value);
    if props.Threw? {
      return Threw;
    }
    return Returned(ResponseUserMessage(info, partyInfo, request.collaborationInfo, props.value, attachments));
  }

  /** The response is signed iff Leg2 has security naming a recognised
      signature algorithm and a recognised digest. */
  predicate SignsResponse(leg2: Leg, t: AlgorithmTables)
  {
    leg2.security.Some?
    && Recognised(t.signature, leg2.security.value.x509SignatureAlgorithmId)
    && Recognised(t.digest, leg2.security.value.x509SignatureHashFunctionId)
  }

  datatype MimeKind = PlainMime | EncryptedMime

  /** `_generateMimeMessageForResponse`: without Leg2 security a plain MIME
      message; with security and a recognised encryption algorithm an
      encrypted one; with security and an unrecognised algorithm null. */
  function MimeMessageFor(leg2: Leg, t: AlgorithmTables): (r: Option<MimeKind>)
    ensures r.None? <==> leg2.security.Some? && !Recognised(t.encryption, leg2.security.value.x509EncryptionAlgorithmId)
    ensures r == Some(PlainMime) <==> leg2.security.None?
  {
    match leg2.security
    case Some(sec) => if Recognised(t.encryption, sec.x509EncryptionAlgorithmId) then Some(EncryptedMime) else None
    case None => Some(PlainMime)
  }

  datatype MimeHeader = MimeHeader(name: string, value: string)

  /** The headers without any named `name` (JavaMail's `removeHeader`). */
  function RemoveNamed(hs: seq<MimeHeader>, name: string): (r: seq<MimeHeader>)
    ensures |r| <= |hs|
    ensures forall h :: h in r <==> h in hs && h.name != name
  {
    if hs == [] then []
    else (if hs[0].name == name then [] else [hs[0]]) + RemoveNamed(hs[1..], name)
  }

  /** The headers an enumeration of the live header list visits when every
      visited header's name is removed as it goes: the first header of each
      name, in order. */
  function FirstOfEachName(hs: seq<MimeHeader>): seq<MimeHeader>
    decreases |hs|
  {
    if hs == [] then [] else [hs[0]] + FirstOfEachName(RemoveNamed(hs[1..], hs[0].name))
  }

  /** Every header name of the MIME message reaches the transport headers. */
  lemma {:induction false} FirstOfEachNameCoversAllNames(hs: seq<MimeHeader>, h: MimeHeader)
    requires h in hs
    ensures exists k :: 0 <= k < |FirstOfEachName(hs)| && FirstOfEachName(hs)[k].name == h.name
    decreases |hs|
  {
    var rest := RemoveNamed(hs[1..], hs[0].name);
    var out := FirstOfEachName(hs);
    assert out == [hs[0]] + FirstOfEachName(rest);
    if h.name == hs[0].name {
      assert out[0].name == h.name;
    } else {
      assert h in hs[1..];
      assert h in rest;
      FirstOfEachNameCoversAllNames(rest, h);
      var k :| 0 <= k < |FirstOfEachName(rest)| && FirstOfEachName(rest)[k].name == h.name;
      assert out[k + 1].name == h.name;
    }
  }

  /** Only headers of the MIME message reach the transport headers. */
  lemma {:induction false} FirstOfEachNameIsSubset(hs: seq<MimeHeader>)
    ensures forall h :: h in FirstOfEachName(hs) ==> h in hs
    decreases |hs|
  {
    if hs != [] {
      var rest := RemoveNamed(hs[1..], hs[0].name);
      FirstOfEachNameIsSubset(rest);
      assert FirstOfEachName(hs) == [hs[0]] + FirstOfEachName(rest);
      forall h | h in FirstOfEachName(hs) ensures h in hs {
        if h != hs[0] {
          assert h in FirstOfEachName(rest);
          assert h in hs[1..];
        }
      }
    }
  }

  /** No header name reaches the transport headers twice. */
  lemma {:induction false} FirstOfEachNameHasDistinctNames(hs: seq<MimeHeader>)
    ensures forall i, j :: 0 <= i < j < |FirstOfEachName(hs)| ==> FirstOfEachName(hs)[i].name != FirstOfEachName(hs)[j].name
    decreases |hs|
  {
    if hs != [] {
      var rest := RemoveNamed(hs[1..], hs[0].name);
      FirstOfEachNameHasDistinctNames(rest);
      FirstOfEachNameIsSubset(rest);
      var out := FirstOfEachName(hs);
      assert out == [hs[0]] + FirstOfEachName(rest);
      forall i, j | 0 <= i < j < |out| ensures out[i].name != out[j].name {
        assert out[j] == FirstOfEachName(rest)[j - 1];
        if i == 0 {
          assert out[j] in rest;
        } else {
          assert out[i] == FirstOfEachName(rest)[i - 1];
        }
      }
    }
  }

  /** A header value made single-line: line breaks become spaces. */
  function SingleLine(v: string): (r: string)
    ensures |r| == |v| && forall i :: 0 <= i < |r| ==> r[i] != '\r' && r[i] != '\n'
  {
    seq(|v|, i requires 0 <= i < |v| => if v[i] == '\r' || v[i] == '\n' then ' ' else v[i])
  }

  function AsHttpHeaders(hs: seq<MimeHeader>): (r: seq<(string, string)>)
    ensures |r| == |hs| && forall i :: 0 <= i < |hs| ==> r[i] == (hs[i].name, SingleLine(hs[i].value))
  {
    seq(|hs|, i requires 0 <= i < |hs| => (hs[i].name, SingleLine(hs[i].value)))
  }

  /** One turn of the header loop: the first header is copied, then every
      header of its name is dropped. */
  lemma MoveStep(hs: seq<MimeHeader>)
    requires hs != []
    ensures AsHttpHeaders(FirstOfEachName(hs))
            == [(hs[0].name, SingleLine(hs[0].value))] + AsHttpHeaders(FirstOfEachName(RemoveNamed(hs, hs[0].name)))
  {
    assert RemoveNamed(hs, hs[0].name) == RemoveNamed(hs[1..], hs[0].name);
    var rest := FirstOfEachName(RemoveNamed(hs, hs[0].name));
    assert FirstOfEachName(hs) == [hs[0]] + rest;
    assert AsHttpHeaders([hs[0]] + rest) == [(hs[0].name, SingleLine(hs[0].value))] + AsHttpHeaders(rest);
  }

  /** The MIME message of a response with attachments. */
  class MimeMessage {
    const kind: MimeKind
    var headers: seq<MimeHeader>

    constructor (kind: MimeKind, headers: seq<MimeHeader>)
      ensures this.kind == kind && this.headers == headers
    {
      this.kind := kind;
      this.headers := headers;
    }
  }

  /** The header loop of the receiver: each header the enumeration yields
      becomes a single-line transport header and is removed, by name, from
      the MIME message, which ends with no headers. */
  method MoveHeadersToResponse(m: MimeMessage) returns (httpHeaders: seq<(string, string)>)
    modifies m
    ensures m.headers == []
    ensures httpHeaders == AsHttpHeaders(FirstOfEachName(old(m.headers)))
  {
    httpHeaders := [];
    while m.headers != []
      invariant httpHeaders + AsHttpHeaders(FirstOfEachName(m.headers)) == AsHttpHeaders(FirstOfEachName(old(m.headers)))
      decreases |m.headers|
    {
      var h := m.headers[0];
      MoveStep(m.headers);
      httpHeaders := httpHeaders + [(h.name, SingleLine(h.value))];
      m.headers := RemoveNamed(m.headers, h.name);
    }
  }
}
