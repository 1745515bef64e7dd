/**
 * What the verdicts of signature verification mean (internal/httpapi/contract_signing.go), on every
 * contract: the content, each provider's own signature, the governance one and the consent expiries,
 * down to the keys and hashes they are made of.
 */
module Verification {
  import opened Wrappers
  import opened Text
  import opened Contracts
  import opened Signing

  /** v is over hash, by the private half of the key that username has registered. */
  predicate SignedAs(a: Authority, username: string, hash: Hash, v: SigValue) {
    Lower(username) in a.keys && v == SignedBy(a.keys[Lower(username)], hash)
  }

  /** v is the governance layer's own signature over hash. */
  predicate LayerSigned(a: Authority, hash: Hash, v: SigValue) {
    a.govKey.Some? && v == SignedBy(a.govKey.value, hash)
  }

  /** The layer's signature block sig is there, names hash and is over it. */
  predicate LayerBlock(a: Authority, sig: Option<Signature>, hash: Hash) {
    sig.Some? && sig.value.signedHash == hash && LayerSigned(a, hash, sig.value.value)
  }

  /** The content hashes to the stored hash, or the layer signed what it hashes to now as an amendment. */
  predicate ContentStands(a: Authority, c: Contract) {
    c.contractHash == HashContract(c) || LayerBlock(a, c.amendment, HashContract(c))
  }

  /** The contract names a dataset and an infrastructure with an id. */
  predicate UnderJobApproval(c: Contract) {
    c.dataProviders != [] && exists ip <- c.infraProviders :: ip.id != ""
  }

  /** sig is provider's, when one is named, and is over hash under the key its signer has registered. */
  predicate VerifiedSignature(a: Authority, sig: Signature, hash: Hash, provider: string) {
    && sig.signedHash == hash
    && (provider != "" ==> ProviderIdForUsername(sig.signer) == provider)
    && SignedAs(a, sig.signer, hash, sig.value)
  }

  /** Every dataset's signature verifies over hash and is its provider's own. */
  ghost predicate DatasetsSigned(a: Authority, ps: seq<DataProviderParty>, hash: Hash) {
    forall p <- ps :: VerifiedSignature(a, p.signature, hash, PartyProviderId(p))
  }

  /** An infra with an id has a signature that verifies over hash, its owner's where one is known. */
  predicate InfraSigned(a: Authority, ip: InfraProviderParty, hash: Hash, owners: map<string, string>) {
    ip.id != "" ==> VerifiedSignature(a, ip.signature, hash, if ip.id in owners then owners[ip.id] else "")
  }

  ghost predicate InfrasSigned(a: Authority, ips: seq<InfraProviderParty>, hash: Hash, owners: map<string, string>) {
    forall ip <- ips :: InfraSigned(a, ip, hash, owners)
  }

  /** Every provider asked to sign c has a signature on it that verifies over hash. */
  ghost predicate ProvidersSigned(a: Authority, c: Contract, hash: Hash, owners: map<string, string>) {
    && DatasetsSigned(a, c.dataProviders, hash)
    && (UnderJobApproval(c) && a.requireInfra ==> InfrasSigned(a, c.infraProviders, hash, owners))
  }

  /** Every provider's signature on c verifies over its contract_hash, which its content matches. */
  ghost predicate EverySignatureVerifies(a: Authority, c: Contract) {
    ContentStands(a, c) && ProvidersSigned(a, c, c.contractHash, map[])
  }

  /** No data provider's consent lies before now. */
  predicate NobodyExpired(c: Contract, now: Time) {
    forall p <- c.dataProviders ::
      p.constraints.consentValidUntil.Some? ==> now <= p.constraints.consentValidUntil.value
  }

  // ---- one signature

  lemma ContentMatchesExactly(a: Authority, c: Contract)
    ensures ContentMatches(a, c) <==> ContentStands(a, c)
    ensures AmendmentValid(a, c, HashContract(c)) <==> LayerBlock(a, c.amendment, HashContract(c))
  {
  }

  lemma NeedsJobApprovalExactly(c: Contract)
    ensures NeedsJobApproval(c) <==> UnderJobApproval(c)
  {
    if UnderJobApproval(c) {
      var ip :| ip in c.infraProviders && ip.id != "";
      var i :| 0 <= i < |c.infraProviders| && c.infraProviders[i] == ip;
      assert c.infraProviders[i].id != "";
    }
    if NeedsJobApproval(c) {
      var i :| 0 <= i < |c.infraProviders| && c.infraProviders[i].id != "";
      assert c.infraProviders[i] in c.infraProviders;
    }
  }

  /** A signature that verifies passes, a missing one is told from a withdrawn one, the rest have failed a check. */
  lemma CheckExactly(a: Authority, sig: Signature, hash: Hash, hashOk: bool, want: string)
    ensures var e := CheckSignature(a, sig, hash, hashOk, want);
      && (e == NoError <==> hashOk && VerifiedSignature(a, sig, hash, want))
      && (e in {NotSigned, ConsentWithdrawn} <==> sig.value == NoValue)
      && (e == ConsentWithdrawn <==> sig.value == NoValue && sig.withdrawnAt.Some?)
      && (e == ContentChanged <==> sig.value != NoValue && !hashOk)
      && (e == DifferentHash <==> sig.value != NoValue && hashOk && sig.signedHash != hash)
      && (e == SignerMismatch <==>
            sig.value != NoValue && hashOk && sig.signedHash == hash
            && want != "" && ProviderIdForUsername(sig.signer) != want)
      && (e == KeyLookupFailed ==> Lower(sig.signer) !in a.keys)
  {
    hide ProviderIdForUsername;
  }

  // ---- all of them

  lemma InfrasSignedGrows(a: Authority, ips: seq<InfraProviderParty>, ip: InfraProviderParty, hash: Hash,
                          owners: map<string, string>)
    ensures InfrasSigned(a, ips + [ip], hash, owners) <==>
      InfrasSigned(a, ips, hash, owners) && InfraSigned(a, ip, hash, owners)
  {
    hide VerifiedSignature;
    assert ip in ips + [ip];
  }

  lemma InfraStatusExactly(a: Authority, ip: InfraProviderParty, hash: Hash, owners: map<string, string>)
    requires ip.id != ""
    ensures Valid(InfraStatus(a, ip, hash, true, OwnerOf(owners, ip.id))) <==> InfraSigned(a, ip, hash, owners)
  {
    hide CheckSignature, VerifiedSignature;
    CheckExactly(a, ip.signature, hash, true, OwnerOf(owners, ip.id));
  }

  lemma {:induction false} InfrasVerify(a: Authority, ips: seq<InfraProviderParty>, hash: Hash,
                                        owners: map<string, string>)
    ensures AllValid(InfraStatuses(a, ips, hash, true, owners)) <==> InfrasSigned(a, ips, hash, owners)
  {
    if ips == [] {
      AllValidNone();
    } else {
      hide InfrasSigned, AllValid, InfraStatus, OwnerOf;
      var init, last := ips[..|ips| - 1], ips[|ips| - 1];
      InfrasVerify(a, init, hash, owners);
      assert ips == init + [last];
      InfrasSignedGrows(a, init, last, hash, owners);
      if last.id != "" {
        InfraStatusExactly(a, last, hash, owners);
        AllValidGrows(InfraStatuses(a, init, hash, true, owners),
                      InfraStatus(a, last, hash, true, OwnerOf(owners, last.id)));
      } else {
        assert InfraStatuses(a, init, hash, true, owners) + [] == InfraStatuses(a, init, hash, true, owners);
      }
    }
  }

  lemma DatasetsVerify(a: Authority, ps: seq<DataProviderParty>, hash: Hash)
    ensures AllValid(DataProviderStatuses(a, ps, hash, true)) <==> DatasetsSigned(a, ps, hash)
  {
    hide CheckSignature, VerifiedSignature, PartyProviderId;
    var sts := DataProviderStatuses(a, ps, hash, true);
    forall i | 0 <= i < |ps|
      ensures Valid(sts[i]) <==> VerifiedSignature(a, ps[i].signature, hash, PartyProviderId(ps[i]))
    {
      CheckExactly(a, ps[i].signature, hash, true, PartyProviderId(ps[i]));
    }
    if AllValid(sts) {
      forall p | p in ps ensures VerifiedSignature(a, p.signature, hash, PartyProviderId(p)) {
        var i :| 0 <= i < |ps| && ps[i] == p;
        assert Valid(sts[i]);
      }
    }
  }

  /** Every status is valid exactly when every provider asked to sign has. */
  lemma {:induction false} StatusesMean(a: Authority, c: Contract, hash: Hash, owners: map<string, string>)
    ensures AllValid(ProviderStatuses(a, c, hash, true, owners)) <==> ProvidersSigned(a, c, hash, owners)
  {
    hide DatasetsSigned, InfrasSigned, UnderJobApproval, NeedsJobApproval, AllValid;
    hide DataProviderStatuses, InfraStatuses;
    NeedsJobApprovalExactly(c);
    DatasetsVerify(a, c.dataProviders, hash);
    InfrasVerify(a, c.infraProviders, hash, owners);
    var data := DataProviderStatuses(a, c.dataProviders, hash, true);
    AllValidJoins(data, InfraStatuses(a, c.infraProviders, hash, true, owners));
    assert data + [] == data;
  }

  /** The server's verdict means that every signature verifies, and the governance one where it is asked for. */
  lemma {:induction false} VerifiedMeans(a: Authority, c: Contract)
    ensures ContractVerified(a, c) <==>
      (&& c.dataProviders != [] && EverySignatureVerifies(a, c)
       && (!UnderJobApproval(c) ==> LayerBlock(a, c.governance, c.contractHash)))
  {
    hide ContentMatches, ContentStands, UnderJobApproval, NeedsJobApproval, AllValid, ProviderStatuses, ProvidersSigned;
    ContentMatchesExactly(a, c);
    NeedsJobApprovalExactly(c);
    StatusesMean(a, c, c.contractHash, map[]);
  }

  // ---- the run gate

  /** What a run asks of a contract, under job approval or not. */
  ghost predicate MayRun(a: Authority, c: Contract, now: Time) {
    && (c.technique == "FL" ==> c.version >= 2)
    && c.dataProviders != [] && EverySignatureVerifies(a, c)
    && (!UnderJobApproval(c) ==> LayerBlock(a, c.governance, c.contractHash))
    && NobodyExpired(c, now)
  }

  /**
   * Main result: on every contract the gate opens if and only if an FL contract is a final roster,
   * the content stands, a provider is named, every provider asked to sign has a signature that
   * verifies, the governance layer signed where it is asked to, and nobody's consent lies before now.
   */
  lemma {:induction false} GateExactly(a: Authority, c: Contract, now: Time)
    ensures Gate(a, c, now) == Passed <==> MayRun(a, c, now)
  {
    hide ContractVerified, EverySignatureVerifies, UnderJobApproval, LayerBlock, ContentMatches;
    hide NobodyExpired, ConsentCurrent, GovernanceSignatureOk;
    VerifiedMeans(a, c);
    VerifiedParts(a, c);
    CurrentExactly(c, now);
  }

  lemma VerifiedParts(a: Authority, c: Contract)
    ensures ContractVerified(a, c) ==> ContentMatches(a, c) && GovernanceSignatureOk(a, c, c.contractHash)
  {
    hide ContentMatches, GovernanceSignatureOk, AllValid;
  }

  lemma CurrentExactly(c: Contract, now: Time)
    ensures ConsentCurrent(c, now) <==> NobodyExpired(c, now)
  {
    if ConsentCurrent(c, now) {
      forall p | p in c.dataProviders
        ensures p.constraints.consentValidUntil.Some? ==> now <= p.constraints.consentValidUntil.value
      {
        var i :| 0 <= i < |c.dataProviders| && c.dataProviders[i] == p;
        assert c.dataProviders[i].constraints == p.constraints;
      }
    }
  }

  lemma GovernanceExactly(a: Authority, c: Contract)
    ensures GovernanceSignatureOk(a, c, c.contractHash) <==>
      UnderJobApproval(c) || LayerBlock(a, c.governance, c.contractHash)
  {
    hide NeedsJobApproval, UnderJobApproval;
    NeedsJobApprovalExactly(c);
  }

  /** Which refusal a shut gate gives: the first of the promises that fails, in this order. */
  lemma {:induction false} ShutGateSays(a: Authority, c: Contract, now: Time)
    ensures var g := Gate(a, c, now);
      var final := c.technique == "FL" ==> c.version >= 2;
      var governed := UnderJobApproval(c) || LayerBlock(a, c.governance, c.contractHash);
      var signed := c.dataProviders != [] && ProvidersSigned(a, c, c.contractHash, map[]);
      && (g == NotFinalRoster <==> !final)
      && (g == HashMismatch <==> final && !ContentStands(a, c))
      && (g == NoGovernance <==> final && ContentStands(a, c) && !governed)
      && (g == WaitingOnProviders <==> final && ContentStands(a, c) && governed && !signed)
      && (g == ConsentExpired <==> final && ContentStands(a, c) && governed && signed && !NobodyExpired(c, now))
  {
    hide ContractVerified, ProvidersSigned, UnderJobApproval, LayerBlock, ContentMatches, ContentStands;
    hide NobodyExpired, ConsentCurrent, GovernanceSignatureOk;
    ContentMatchesExactly(a, c);
    VerifiedMeans(a, c);
    GovernanceExactly(a, c);
    CurrentExactly(c, now);
  }
}
