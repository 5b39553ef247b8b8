/** Processing modes (PModes): the bilateral agreement that governs an
    exchange, and the policy questions the receiver asks of it. */
module PModes {
  import opened Common

  /** The reserved service and action that mark a test ("ping") message
      (ebMS 3.0 Core, sections 5.2.2.8 and 5.2.2.9). */
  const DEFAULT_SERVICE_URL: string := "http://docs.oasis-open.org/ebxml-msg/ebms/v3.0/ns/core/200704/service"
  const DEFAULT_ACTION_URL: string := "http://docs.oasis-open.org/ebxml-msg/ebms/v3.0/ns/core/200704/test"

  datatype Mep = OneWay | TwoWay
  datatype MepBinding = Sync | Push | Pull | PushPush | PushPull | PullPush

  datatype ReceiptReplyPattern = Response | Callback

  /** Leg security; every setting may be left undefined. */
  datatype LegSecurity = LegSecurity(
    x509SignatureAlgorithmId: Option<string>,
    x509SignatureHashFunctionId: Option<string>,
    x509EncryptionAlgorithmId: Option<string>,
    sendReceiptReplyPattern: Option<ReceiptReplyPattern>,
    sendReceiptNonRepudiation: Option<bool>)

  datatype ErrorHandling = ErrorHandling(reportAsResponse: Option<bool>)

  datatype BusinessInfo = BusinessInfo(action: Option<string>, service: Option<string>)

  datatype Leg = Leg(businessInfo: Option<BusinessInfo>,
                     errorHandling: Option<ErrorHandling>,
                     security: Option<LegSecurity>)

  datatype PModeConfig = PModeConfig(id: string, mep: Mep, binding: MepBinding,
                                     leg1: Option<Leg>, leg2: Option<Leg>)

  /** One side of a concrete PMode. */
  datatype PModeParty = PModeParty(idType: Option<string>, idValue: string, role: string)

  /** A PMode binds a configuration to an initiator and a responder. */
  datatype PMode = PMode(initiator: PModeParty, responder: PModeParty, config: PModeConfig)
  {
    function InitiatorId(): string { initiator.idValue }
    function ResponderId(): string { responder.idValue }
    function ConfigId(): string { config.id }
  }

  /** The crypto algorithm IDs the library recognises; an unknown ID maps to
      null in `ECryptoAlgorithm*.getFromIDOrNull`. */
  datatype AlgorithmTables = AlgorithmTables(signature: set<string>, digest: set<string>, encryption: set<string>)

  predicate Recognised(table: set<string>, id: Option<string>)
  {
    id.Some? && id.value in table
  }

  /** `_isNotPingMessage`: the message is a ping exactly when Leg1's business
      info names the reserved action and service. Leg1 itself is
      dereferenced without a check, so a configuration without Leg1 throws. */
  function IsNotPingMessage(cfg: PModeConfig): (r: Eval<bool>)
    ensures r.Threw? <==> cfg.leg1.None?
    ensures r.Returned? ==>
              (!r.value <==> cfg.leg1.value.businessInfo.Some?
                             && cfg.leg1.value.businessInfo.value.action == Some(DEFAULT_ACTION_URL)
                             && cfg.leg1.value.businessInfo.value.service == Some(DEFAULT_SERVICE_URL))
  {
    match cfg.leg1
    case None => Threw
    case Some(leg1) =>
      match leg1.businessInfo
      case Some(b) =>
        if b.action == Some(DEFAULT_ACTION_URL) && b.service == Some(DEFAULT_SERVICE_URL)
        then Returned(false) else Returned(true)
      case None => Returned(true)
  }

  /** The Leg1 security of an optional configuration, if everything on the
      way to it is present. */
  function Leg1Security(cfg: Option<PModeConfig>): Option<LegSecurity>
  {
    if cfg.Some? && cfg.value.leg1.Some? then cfg.value.leg1.value.security else None
  }

  /** `_isSendNonRepudiationInformation`: the defined Leg1 setting, else false. */
  function IsSendNonRepudiationInformation(cfg: Option<PModeConfig>): (r: bool)
    ensures r <==> Leg1Security(cfg).Some? && Leg1Security(cfg).value.sendReceiptNonRepudiation == Some(true)
  {
    if cfg.Some? then
      if cfg.value.leg1.Some? then
        if cfg.value.leg1.value.security.Some? then
          match cfg.value.leg1.value.security.value.sendReceiptNonRepudiation
          case Some(b) => b
          case None => false
        else false
      else false
    else false
  }

  /** `_isSendErrorAsResponse`: the defined Leg1 reportAsResponse, else true. */
  function IsSendErrorAsResponse(cfg: Option<PModeConfig>): (r: bool)
    ensures !r <==> cfg.Some? && cfg.value.leg1.Some? && cfg.value.leg1.value.errorHandling.Some?
                    && cfg.value.leg1.value.errorHandling.value.reportAsResponse == Some(false)
  {
    if cfg.Some? then
      if cfg.value.leg1.Some? then
        if cfg.value.leg1.value.errorHandling.Some? then
          match cfg.value.leg1.value.errorHandling.value.reportAsResponse
          case Some(b) => b
          case None => true
        else true
      else true
    else true
  }

  /** `_isSendReceiptAsResponse`: when Leg1 has security, whether its reply
      pattern is RESPONSE (an undefined pattern counts as "no"); without
      configuration, Leg1 or Leg1 security, true. */
  function IsSendReceiptAsResponse(cfg: Option<PModeConfig>): (r: bool)
    ensures Leg1Security(cfg).None? ==> r
    ensures Leg1Security(cfg).Some? ==> (r <==> Leg1Security(cfg).value.sendReceiptReplyPattern == Some(Response))
  {
    if cfg.Some? then
      if cfg.value.leg1.Some? then
        if cfg.value.leg1.value.security.Some? then
          cfg.value.leg1.value.security.value.sendReceiptReplyPattern == Some(Response)
        else true
      else true
    else true
  }

  /** `doesPartnerAndPartnerExist`: the PMode binds exactly this initiator,
      responder and configuration. */
  predicate DoesPartnerAndPartnerExist(initiatorId: string, responderId: string, configId: string, p: PMode)
  {
    p.InitiatorId() == initiatorId && p.ResponderId() == responderId && p.ConfigId() == configId
  }

  /** A PMode matches exactly its own initiator, responder and configuration
      IDs; the parties' ID types and roles play no part. */
  lemma PModeMatchesItsOwnIds(p: PMode, initiatorId: string, responderId: string, configId: string,
                              initiatorType: Option<string>, initiatorRole: string,
                              responderType: Option<string>, responderRole: string)
    ensures DoesPartnerAndPartnerExist(initiatorId, responderId, configId, p) <==>
              initiatorId == p.initiator.idValue && responderId == p.responder.idValue && configId == p.config.id
    ensures DoesPartnerAndPartnerExist(initiatorId, responderId, configId, p) <==>
              DoesPartnerAndPartnerExist(initiatorId, responderId, configId,
                                         PMode(PModeParty(initiatorType, p.initiator.idValue, initiatorRole),
                                               PModeParty(responderType, p.responder.idValue, responderRole), p.config))
  {
  }
}
