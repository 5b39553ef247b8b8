/** The process-wide stores the receiver consults (PMode configurations,
    partners, PModes, the duplicate registry), and the auto-provisioning of
    partners and PModes for a message whose configuration is known. */
module Provisioning {
  import opened Common
  import opened Ebms3
  import opened PModes

  datatype Certificate = Certificate(pem: string)

  /** A partner record: its name attribute and, optionally, a certificate. */
  datatype Partner = Partner(name: string, certificate: Option<Certificate>)

  /** The three stores provisioning reads and writes, as one value. */
  datatype Stores = Stores(configs: map<string, PModeConfig>, partners: map<string, Partner>, pmodes: seq<PMode>)

  /** `_createOrUpdatePartner`: the partner record for `id`, with the
      certificate when one is given. */
  function CreateOrUpdatePartner(s: Stores, certificate: Option<Certificate>, id: string): (r: Stores)
    ensures r.configs == s.configs && r.pmodes == s.pmodes
    ensures r.partners.Keys == s.partners.Keys + {id} && r.partners[id] == Partner(id, certificate)
    ensures forall k :: k in s.partners && k != id ==> r.partners[k] == s.partners[k]
  {
    s.(partners := s.partners[id := Partner(id, certificate)])
  }

  predicate HasMatchingPMode(s: Stores, initiatorId: string, responderId: string, configId: string)
  {
    exists i | 0 <= i < |s.pmodes| :: DoesPartnerAndPartnerExist(initiatorId, responderId, configId, s.pmodes[i])
  }

  /** The PMode created for a message: From becomes the initiator, To the
      responder, bound to the stored configuration. */
  function NewPMode(s: Stores, configId: string, partyInfo: PartyInfo): PMode
    requires configId in s.configs
  {
    var from, to := partyInfo.from, partyInfo.to;
    PMode(PModeParty(from.firstPartyId.idType, from.firstPartyId.value, from.role),
          PModeParty(to.firstPartyId.idType, to.firstPartyId.value, to.role),
          s.configs[configId])
  }

  /** `_ensurePModeIsPresent`: adds a PMode unless one already binds the
      initiator, the responder and the configuration. */
  function EnsurePModeIsPresent(s: Stores, initiatorId: string, responderId: string, configId: string,
                                partyInfo: PartyInfo): (r: Stores)
    requires configId in s.configs
    ensures r.configs == s.configs && r.partners == s.partners
    ensures HasMatchingPMode(s, initiatorId, responderId, configId) ==> r.pmodes == s.pmodes
    ensures !HasMatchingPMode(s, initiatorId, responderId, configId) ==>
              r.pmodes == s.pmodes + [NewPMode(s, configId, partyInfo)]
  {
    if HasMatchingPMode(s, initiatorId, responderId, configId) then s
    else s.(pmodes := s.pmodes + [NewPMode(s, configId, partyInfo)])
  }

  /** The provisioning step of the receiver. With a stored configuration:
      a missing initiator is created with the certificate seen on the wire;
      otherwise a missing responder is created without certificate; then a
      PMode is ensured. With an unknown configuration nothing happens. */
  function Provision(s: Stores, configId: string, initiatorId: string, responderId: string,
                     usedCertificate: Option<Certificate>, partyInfo: PartyInfo): Stores
  {
    if configId !in s.configs then s
    else if initiatorId in s.partners && responderId in s.partners then
      EnsurePModeIsPresent(s, initiatorId, responderId, configId, partyInfo)
    else
      var s1 := if initiatorId !in s.partners then CreateOrUpdatePartner(s, usedCertificate, initiatorId)
                else CreateOrUpdatePartner(s, None, responderId);
      EnsurePModeIsPresent(s1, initiatorId, responderId, configId, partyInfo)
  }

  /** Provisioning never changes the configurations or an existing partner,
      creates at most one partner (the initiator when it is missing, else
      the responder), and adds a PMode exactly when the configuration is
      stored and no PMode binds the triple. */
  lemma ProvisionEffects(s: Stores, configId: string, initiatorId: string, responderId: string,
                         cert: Option<Certificate>, partyInfo: PartyInfo)
    ensures var r := Provision(s, configId, initiatorId, responderId, cert, partyInfo);
            && r.configs == s.configs
            && (forall k :: k in s.partners ==> k in r.partners && r.partners[k] == s.partners[k])
            && (configId !in s.configs ==> r == s)
            && (configId in s.configs && initiatorId !in s.partners ==>
                  r.partners.Keys == s.partners.Keys + {initiatorId} && r.partners[initiatorId] == Partner(initiatorId, cert))
            && (configId in s.configs && initiatorId in s.partners && responderId !in s.partners ==>
                  r.partners.Keys == s.partners.Keys + {responderId} && r.partners[responderId] == Partner(responderId, None))
            && (configId in s.configs && initiatorId in s.partners && responderId in s.partners ==>
                  r.partners == s.partners)
            && |r.partners.Keys - s.partners.Keys| <= 1
            && (r.pmodes == s.pmodes || (configId in s.configs && !HasMatchingPMode(s, initiatorId, responderId, configId)
                                        && r.pmodes == s.pmodes + [NewPMode(s, configId, partyInfo)]))
            && (configId in s.configs && !HasMatchingPMode(s, initiatorId, responderId, configId) ==> |r.pmodes| == |s.pmodes| + 1)
  {
    var r := Provision(s, configId, initiatorId, responderId, cert, partyInfo);
    if configId in s.configs && !(initiatorId in s.partners && responderId in s.partners) {
      var id := if initiatorId !in s.partners then initiatorId else responderId;
      assert r.partners.Keys == s.partners.Keys + {id};
      assert r.partners.Keys - s.partners.Keys == {id};
    }
  }

  /** The PMode created for a message binds the same triple as the message
      when From and To carry the initiator and responder IDs. */
  lemma NewPModeMatches(s: Stores, configId: string, initiatorId: string, responderId: string, partyInfo: PartyInfo)
    requires configId in s.configs && s.configs[configId].id == configId
    requires partyInfo.from.firstPartyId.value == initiatorId && partyInfo.to.firstPartyId.value == responderId
    ensures DoesPartnerAndPartnerExist(initiatorId, responderId, configId, NewPMode(s, configId, partyInfo))
  {
  }

  /** A stored configuration keeps its own ID as key. */
  predicate ConfigsKeyedById(s: Stores)
  {
    forall k :: k in s.configs ==> s.configs[k].id == k
  }

  /** First contact when neither partner is known: the first exchange
      creates only the initiator (with certificate) and a PMode, the second
      creates the responder (without certificate) and no further PMode, and
      from then on provisioning changes nothing. */
  lemma {:induction false} ProvisionConverges(s: Stores, configId: string, initiatorId: string, responderId: string,
                                            cert: Option<Certificate>, partyInfo: PartyInfo)
    requires ConfigsKeyedById(s) && configId in s.configs
    requires initiatorId != responderId && initiatorId !in s.partners && responderId !in s.partners
    requires partyInfo.from.firstPartyId.value == initiatorId && partyInfo.to.firstPartyId.value == responderId
    ensures var s1 := Provision(s, configId, initiatorId, responderId, cert, partyInfo);
            var s2 := Provision(s1, configId, initiatorId, responderId, cert, partyInfo);
            && initiatorId in s1.partners && responderId !in s1.partners
            && HasMatchingPMode(s1, initiatorId, responderId, configId)
            && s1.partners[initiatorId].certificate == cert
            && responderId in s2.partners && s2.partners[responderId].certificate.None?
            && s2.pmodes == s1.pmodes
            && Provision(s2, configId, initiatorId, responderId, cert, partyInfo) == s2
  {
    var s1 := Provision(s, configId, initiatorId, responderId, cert, partyInfo);
    var s0 := CreateOrUpdatePartner(s, cert, initiatorId);
    assert s1 == EnsurePModeIsPresent(s0, initiatorId, responderId, configId, partyInfo);
    if !HasMatchingPMode(s0, initiatorId, responderId, configId) {
      NewPModeMatches(s0, configId, initiatorId, responderId, partyInfo);
      assert DoesPartnerAndPartnerExist(initiatorId, responderId, configId, s1.pmodes[|s1.pmodes| - 1]);
    }
    assert HasMatchingPMode(s1, initiatorId, responderId, configId);
    var s2 := Provision(s1, configId, initiatorId, responderId, cert, partyInfo);
    assert s2 == EnsurePModeIsPresent(CreateOrUpdatePartner(s1, None, responderId), initiatorId, responderId, configId, partyInfo);
  }

  /** `registerAndCheck` of the duplicate registry, as a value: whether the
      ID was seen before, and the registry with the ID recorded. */
  function RegisterAndCheck(seen: set<string>, messageId: string): (r: (bool, set<string>))
    ensures r.0 <==> messageId in seen
    ensures r.1 == seen + {messageId}
  {
    (messageId in seen, seen + {messageId})
  }

  /** The verdicts for a series of deliveries, registered one after the
      other. */
  function RegisterAll(seen: set<string>, ids: seq<string>): (verdicts: seq<bool>)
    ensures |verdicts| == |ids|
    decreases |ids|
  {
    if ids == [] then []
    else
      var (dup, seen') := RegisterAndCheck(seen, ids[0]);
      [dup] + RegisterAll(seen', ids[1..])
  }

  /** A delivery is reported as duplicate exactly when its ID was registered
      before or an earlier delivery in the series carried it: the first
      delivery of an ID is new, every later one is a duplicate. */
  lemma {:induction false} RegisterAllReportsRepeats(seen: set<string>, ids: seq<string>, k: nat)
    requires k < |ids|
    ensures RegisterAll(seen, ids)[k] <==> ids[k] in seen || exists j :: 0 <= j < k && ids[j] == ids[k]
    decreases k
  {
    if k > 0 {
      RegisterAllReportsRepeats(seen + {ids[0]}, ids[1..], k - 1);
      assert ids[1..][k - 1] == ids[k];
      if exists j :: 0 <= j < k - 1 && ids[1..][j] == ids[k] {
        var j :| 0 <= j < k - 1 && ids[1..][j] == ids[k];
        assert ids[j + 1] == ids[k];
      }
      if exists j :: 0 < j < k && ids[j] == ids[k] {
        var j :| 0 < j < k && ids[j] == ids[k];
        assert ids[1..][j - 1] == ids[k];
      }
    }
  }

  /** `MetaAS4Manager`'s stores, updated in place by the receiver. */
  class StoreManager {
    var configs: map<string, PModeConfig>
    var partners: map<string, Partner>
    var pmodes: seq<PMode>
    var seenMessageIds: set<string>

    constructor (configs: map<string, PModeConfig>, partners: map<string, Partner>, pmodes: seq<PMode>, seen: set<string>)
      ensures this.configs == configs && this.partners == partners && this.pmodes == pmodes && seenMessageIds == seen
    {
      this.configs := configs;
      this.partners := partners;
      this.pmodes := pmodes;
      seenMessageIds := seen;
    }

    function Value(): Stores
      reads this
    {
      Stores(configs, partners, pmodes)
    }

    /** Provisioning for one message, applied to the stores. */
    method ApplyProvisioning(configId: string, initiatorId: string, responderId: string,
                     usedCertificate: Option<Certificate>, partyInfo: PartyInfo)
      modifies this
      ensures Value() == Provision(old(Value()), configId, initiatorId, responderId, usedCertificate, partyInfo)
      ensures seenMessageIds == old(seenMessageIds)
    {
      if configId in configs {
        if initiatorId in partners && responderId in partners {
          EnsurePMode(initiatorId, responderId, configId, partyInfo);
        } else {
          if initiatorId !in partners {
            partners := partners[initiatorId := Partner(initiatorId, usedCertificate)];
          } else if responderId !in partners {
            partners := partners[responderId := Partner(responderId, None)];
          }
          EnsurePMode(initiatorId, responderId, configId, partyInfo);
        }
      }
    }

    method EnsurePMode(initiatorId: string, responderId: string, configId: string, partyInfo: PartyInfo)
      requires configId in configs
      modifies this`pmodes
      ensures Value() == EnsurePModeIsPresent(old(Value()), initiatorId, responderId, configId, partyInfo)
    {
      if !HasMatchingPMode(Value(), initiatorId, responderId, configId) {
        pmodes := pmodes + [NewPMode(Value(), configId, partyInfo)];
      }
    }

    /** `registerAndCheck`: reports whether the ID was seen, and records it. */
    method RegisterMessageId(messageId: string) returns (duplicate: bool)
      modifies this`seenMessageIds
      ensures (duplicate, seenMessageIds) == RegisterAndCheck(old(seenMessageIds), messageId)
    {
      duplicate := messageId in seenMessageIds;
      seenMessageIds := seenMessageIds + {messageId};
    }
  }
}
