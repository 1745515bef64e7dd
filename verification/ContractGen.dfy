/**
 * How a contract comes to be: BuildGeneratedContract for a dataset and
 * technique selection (internal/services/contractgen.go) and BuildContract
 * for an FL roster (internal/db/contracts.go).
 */
module ContractGen {
  import opened Wrappers
  import opened Contracts
  import opened Signing
  import opened SigningRuns
  import Verification

  datatype DatasetInput = DatasetInput(
    datasetId: string,
    datasetName: string,
    providerName: string,
    providerId: string,
    isPrivate: bool,
    dataUrl: string,
    keyResourcePath: string)

  datatype InfraInput = InfraInput(
    id: string,
    name: string,
    region: string,
    attestation: Attestation,
    allocation: ResourceAllocation)

  datatype GenerateInput = GenerateInput(
    datasets: seq<DatasetInput>,
    applicationId: string,
    technique: string,
    computeChoice: string,
    purpose: string,
    consumerId: string,
    consumerName: string,
    kbsUrl: string,
    resultUrl: string,
    callbackUrl: string,
    infras: seq<InfraInput>,
    contractId: string,  // minted
    jobId: string,       // minted
    now: Time)

  const NINETY_DAYS: Time := 90 * 24 * 3600

  function NewTrustee(kbsUrl: string, datasetName: string, datasetId: string): Option<Trustee> {
    if kbsUrl == "" then None
    else
      Some(Trustee(kbsUrl, "default/" + datasetName + "-key/" + (if datasetId == "" then datasetName else datasetId)))
  }

  function TrusteeFor(kbsUrl: string, d: DatasetInput): Option<Trustee> {
    var t := NewTrustee(kbsUrl, d.datasetName, d.datasetId);
    if t.Some? && d.keyResourcePath != "" then Some(t.value.(keyResourcePath := d.keyResourcePath)) else t
  }

  function DataParty(kbsUrl: string, d: DatasetInput): DataProviderParty {
    DataProviderParty(
      d.providerId,
      if d.providerName == "" then "Unknown Data Provider" else d.providerName,
      d.datasetId, d.datasetName, "v1", d.dataUrl,
      Constraints(if d.isPrivate then "PRIVATE" else "PUBLIC", [], None),
      TrusteeFor(kbsUrl, d),
      BLANK_SIGNATURE)
  }

  function DataParties(kbsUrl: string, ds: seq<DatasetInput>): (r: seq<DataProviderParty>)
    ensures |r| == |ds|
  {
    seq(|ds|, i requires 0 <= i < |ds| => DataParty(kbsUrl, ds[i]))
  }

  const OPEN_CONSTRAINTS := Constraints("PUBLIC", [], None)

  function InfraParty(f: InfraInput): InfraProviderParty {
    InfraProviderParty(f.id, if f.name == "" then "Unknown Infrastructure" else f.name, f.region,
                       f.attestation, f.allocation.(gpu := ""), OPEN_CONSTRAINTS, BLANK_SIGNATURE)
  }

  const PLACEHOLDER_INFRA := InfraProviderParty(
    "", "Azure Confidential Compute", "UNKNOWN", Attestation(true, "MAA", ""),
    ResourceAllocation(0, 0, "", false, false, false, false, false), OPEN_CONSTRAINTS, BLANK_SIGNATURE)

  function InfraParties(technique: string, fs: seq<InfraInput>): seq<InfraProviderParty> {
    if technique != "TEE" && technique != "SMPC" then []
    else if fs == [] then [PLACEHOLDER_INFRA]
    else seq(|fs|, i requires 0 <= i < |fs| => InfraParty(fs[i]))
  }

  function AppParties(appId: string): seq<ApplicationProviderParty> {
    if appId == "" then []
    else [ApplicationProviderParty(
            appId, "Unknown Application Provider", appId,
            if appId in KNOWN_WORKLOADS then KNOWN_WORKLOADS[appId].image else "", "",
            OPEN_CONSTRAINTS, BLANK_SIGNATURE)]
  }

  function DefaultComputeChoice(technique: string): string {
    if technique == "FL" then "FEDERATED_LEARNING"
    else if technique == "TEE" then "ANONYMIZATION"
    else if technique == "SMPC" then "SECURE_MULTIPARTY_COMPUTATION"
    else ""
  }

  function WorkloadEnv(ps: seq<DataProviderParty>, resultUrl: string): map<string, string> {
    (if ps != [] && ps[0].dataUrl != "" then map[DATASET_URL := ps[0].dataUrl] else map[]) +
    (if resultUrl != "" then map[RESULT_URL := resultUrl] else map[])
  }

  function GeneratedWorkload(g: GenerateInput, ps: seq<DataProviderParty>): Option<Workload> {
    if g.applicationId != "" && g.applicationId in KNOWN_WORKLOADS
    then Some(Workload(KNOWN_WORKLOADS[g.applicationId].image, KNOWN_WORKLOADS[g.applicationId].resources,
                       WorkloadEnv(ps, g.resultUrl)))
    else None
  }

  function GeneratedContract(g: GenerateInput): Contract {
    var ps := DataParties(g.kbsUrl, g.datasets);
    var workload := GeneratedWorkload(g, ps);
    Rehash(Contract(
      "", g.contractId, g.jobId, 1,
      Lifecycle(g.now, g.now, g.now + NINETY_DAYS, None),
      g.technique,
      if g.computeChoice == "" then DefaultComputeChoice(g.technique) else g.computeChoice,
      g.purpose,
      workload,
      if workload.Some? && ps != [] then ps[0].trustee else None,
      if workload.Some? && g.callbackUrl != "" then g.callbackUrl + "/" + g.contractId else "",
      UserParty(g.consumerId, g.consumerName, g.resultUrl, BLANK_SIGNATURE),
      ps, AppParties(g.applicationId), InfraParties(g.technique, g.infras),
      SessionInfo("", "", g.consumerId),
      NoHash, None, None))
  }

  method BuildDataParties(g: GenerateInput) returns (ps: seq<DataProviderParty>)
    ensures ps == DataParties(g.kbsUrl, g.datasets)
  {
    ps := [];
    for i := 0 to |g.datasets|
      invariant ps == DataParties(g.kbsUrl, g.datasets)[..i]
    {
      ps := ps + [DataParty(g.kbsUrl, g.datasets[i])];
    }
  }

  method BuildInfraParties(g: GenerateInput) returns (infras: seq<InfraProviderParty>)
    ensures infras == InfraParties(g.technique, g.infras)
  {
    infras := [];
    if g.technique == "TEE" || g.technique == "SMPC" {
      for i := 0 to |g.infras|
        invariant |infras| == i && forall k :: 0 <= k < i ==> infras[k] == InfraParty(g.infras[k])
      {
        infras := infras + [InfraParty(g.infras[i])];
      }
      if |infras| == 0 {
        infras := [PLACEHOLDER_INFRA];
      }
    }
  }

  method BuildWorkload(g: GenerateInput, ps: seq<DataProviderParty>)
    returns (apps: seq<ApplicationProviderParty>, workload: Option<Workload>)
    ensures apps == AppParties(g.applicationId)
    ensures workload == GeneratedWorkload(g, ps)
  {
    apps, workload := [], None;
    if g.applicationId != "" {
      var app := ApplicationProviderParty(g.applicationId, "Unknown Application Provider", g.applicationId, "", "",
                                          OPEN_CONSTRAINTS, BLANK_SIGNATURE);
      if g.applicationId in KNOWN_WORKLOADS {
        var w := KNOWN_WORKLOADS[g.applicationId];
        app := app.(containerImage := w.image);
        var env: map<string, string> := map[];
        if |ps| > 0 && ps[0].dataUrl != "" {
          env := env[DATASET_URL := ps[0].dataUrl];
        }
        if g.resultUrl != "" {
          env := env[RESULT_URL := g.resultUrl];
        }
        assert env == WorkloadEnv(ps, g.resultUrl);
        workload := Some(Workload(w.image, w.resources, env));
      }
      apps := apps + [app];
    }
  }

  method BuildGeneratedContract(g: GenerateInput) returns (c: Contract)
    ensures c == GeneratedContract(g)
  {
    hide HashContract, DataParties, InfraParties, AppParties, GeneratedWorkload, DefaultComputeChoice;
    var ps := BuildDataParties(g);
    var apps, workload := BuildWorkload(g, ps);
    var infras := BuildInfraParties(g);
    var choice := g.computeChoice;
    if choice == "" {
      choice := DefaultComputeChoice(g.technique);
    }
    var trustee: Option<Trustee> := None;
    var callback := "";
    if workload.Some? {
      if |ps| > 0 && ps[0].trustee.Some? {
        trustee := ps[0].trustee;
      }
      if g.callbackUrl != "" {
        callback := g.callbackUrl + "/" + g.contractId;
      }
    }
    c := Contract("", g.contractId, g.jobId, 1, Lifecycle(g.now, g.now, g.now + NINETY_DAYS, None), g.technique,
                  choice, g.purpose, workload, trustee, callback,
                  UserParty(g.consumerId, g.consumerName, g.resultUrl, BLANK_SIGNATURE), ps, apps, infras,
                  SessionInfo("", "", g.consumerId), NoHash, None, None);
    c := c.(contractHash := HashContract(c));
  }

  /** The contract POST /generate-contract stores: governance-signed unless it is FL or needs job approval. */
  function StoredGenerated(a: Authority, g: GenerateInput): Contract {
    var c := GeneratedContract(g);
    if NeedsJobApproval(c) || c.technique == "FL" || a.govKey.None? then c
    else GovernanceSign(c, a.govKey.value, g.now)
  }

  datatype RosterParty = RosterParty(id: string, username: string, datasetName: string, dataUrl: string)

  datatype RosterInput = RosterInput(
    submissionId: string, ownerId: string, parties: seq<RosterParty>, finalize: bool, kbsUrl: string,
    validity: Time, projectId: string, contractId: string, jobId: string, now: Time)

  /** A roster party, with the invitation it already accepted on the session's previous contract. */
  function RosterDataParty(g: RosterInput, p: RosterParty, prior: map<string, Time>): DataProviderParty {
    DataProviderParty(p.id, p.username, "", p.datasetName, "", p.dataUrl, Constraints("", [], None),
                      NewTrustee(g.kbsUrl, p.datasetName, ""),
                      if p.username in prior then BLANK_SIGNATURE.(signedAt := Some(prior[p.username]))
                      else BLANK_SIGNATURE)
  }

  function RosterParties(g: RosterInput, prior: map<string, Time>): (r: seq<DataProviderParty>)
    ensures |r| == |g.parties|
  {
    seq(|g.parties|, i requires 0 <= i < |g.parties| => RosterDataParty(g, g.parties[i], prior))
  }

  function RosterContract(g: RosterInput, prior: map<string, Time>): Contract {
    var owner := if g.ownerId == "" then g.submissionId else g.ownerId;
    Rehash(Contract(
      g.projectId, g.contractId, g.jobId, if g.finalize then 2 else 1,
      Lifecycle(g.now, g.now, g.now + (if g.validity <= 0 then NINETY_DAYS else g.validity), None),
      "FL", "FEDERATED_LEARNING", "", None, None, "",
      UserParty(owner, owner, "", BLANK_SIGNATURE.(signedAt := Some(g.now))),
      RosterParties(g, prior), [], [], SessionInfo(g.submissionId, g.submissionId, ""),
      NoHash, None, None))
  }

  /** existingDataProviderSignatures: when each party of the previous contract accepted, by name. */
  method ExistingSignatures(ps: seq<DataProviderParty>) returns (signed: map<string, Time>)
    ensures forall name :: name in signed <==>
      exists i :: 0 <= i < |ps| && ps[i].name == name && ps[i].signature.signedAt.Some?
    ensures forall name <- signed ::
      exists i :: 0 <= i < |ps| && ps[i].name == name && ps[i].signature.signedAt == Some(signed[name])
  {
    signed := map[];
    for i := 0 to |ps|
      invariant forall name :: name in signed <==>
        exists k :: 0 <= k < i && ps[k].name == name && ps[k].signature.signedAt.Some?
      invariant forall name <- signed ::
        exists k :: 0 <= k < i && ps[k].name == name && ps[k].signature.signedAt == Some(signed[name])
    {
      if ps[i].signature.signedAt.Some? {
        signed := signed[ps[i].name := ps[i].signature.signedAt.value];
      }
    }
  }

  method BuildContract(g: RosterInput, prior: map<string, Time>) returns (c: Contract)
    ensures c == RosterContract(g, prior)
  {
    var ps: seq<DataProviderParty> := [];
    for i := 0 to |g.parties|
      invariant ps == RosterParties(g, prior)[..i]
    {
      var p := g.parties[i];
      var dp := DataProviderParty(p.id, p.username, "", p.datasetName, "", p.dataUrl, Constraints("", [], None),
                                  NewTrustee(g.kbsUrl, p.datasetName, ""), BLANK_SIGNATURE);
      if p.username in prior {
        dp := dp.(signature := dp.signature.(signedAt := Some(prior[p.username])));
      }
      ps := ps + [dp];
    }
    assert ps == RosterParties(g, prior);
    var owner := g.ownerId;
    if owner == "" {
      owner := g.submissionId;
    }
    var version := 1;
    if g.finalize {
      version := 2;
    }
    var validity := g.validity;
    if validity <= 0 {
      validity := NINETY_DAYS;
    }
    c := Contract(g.projectId, g.contractId, g.jobId, version, Lifecycle(g.now, g.now, g.now + validity, None),
                  "FL", "FEDERATED_LEARNING", "", None, None, "",
                  UserParty(owner, owner, "", BLANK_SIGNATURE.(signedAt := Some(g.now))), ps, [], [],
                  SessionInfo(g.submissionId, g.submissionId, ""), NoHash, None, None);
    c := c.(contractHash := HashContract(c));
  }

  /** The contract POST /contracts stores: the final roster is governance-signed, which needs the key. */
  function StoredRoster(a: Authority, g: RosterInput, prior: map<string, Time>): Option<Contract> {
    var c := RosterContract(g, prior);
    if !g.finalize then Some(c)
    else if a.govKey.None? then None
    else Some(GovernanceSign(c, a.govKey.value, g.now))
  }

  lemma RehashOnlySetsHash(c: Contract)
    ensures Rehash(c).contractHash == HashContract(Rehash(c))
  {
    assert Blank(Rehash(c)) == Blank(c);
  }

  lemma GovernanceSignKeepsFresh(a: Authority, c: Contract, now: Time)
    requires Fresh(a, c) && a.govKey.Some?
    ensures Fresh(a, GovernanceSign(c, a.govKey.value, now))
  {
    assert Blank(GovernanceSign(c, a.govKey.value, now)) == Blank(c);
  }

  /** Both ways a contract is stored start a run: it is fresh, and an FL roster never needs job approval. */
  lemma GeneratedIsFresh(a: Authority, g: GenerateInput)
    ensures Fresh(a, StoredGenerated(a, g))
  {
    var c := GeneratedContract(g);
    RehashOnlySetsHash(c.(contractHash := NoHash));
    assert Rehash(c.(contractHash := NoHash)) == c;
    assert Fresh(a, c);
    if a.govKey.Some? {
      GovernanceSignKeepsFresh(a, c, g.now);
    }
  }

  lemma RosterIsFresh(a: Authority, g: RosterInput, prior: map<string, Time>)
    ensures var c := StoredRoster(a, g, prior);
      c.Some? ==> Fresh(a, c.value) && !NeedsJobApproval(c.value) && (Signable(c.value) <==> g.finalize)
  {
    var c := RosterContract(g, prior);
    RehashOnlySetsHash(c.(contractHash := NoHash));
    assert Rehash(c.(contractHash := NoHash)) == c;
    assert Fresh(a, c);
    if a.govKey.Some? {
      GovernanceSignKeepsFresh(a, c, g.now);
    }
  }

  // ---- what generation promises of every field

  /** The key a dataset is decrypted with: its provider's own, else the default path of its name and id. */
  function KeyPath(d: DatasetInput): string {
    if d.keyResourcePath != "" then d.keyResourcePath
    else if d.datasetId != "" then "default/" + d.datasetName + "-key/" + d.datasetId
    else "default/" + d.datasetName + "-key/" + d.datasetName
  }

  /** The dataset's party: named, at v1, open or restricted, and unsigned. */
  predicate IsPartyOf(p: DataProviderParty, kbsUrl: string, d: DatasetInput) {
    && p.id == d.providerId && p.name == (if d.providerName == "" then "Unknown Data Provider" else d.providerName)
    && p.datasetId == d.datasetId && p.datasetName == d.datasetName && p.datasetVersion == "v1"
    && p.dataUrl == d.dataUrl
    && p.constraints.accessibilityLevel == (if d.isPrivate then "PRIVATE" else "PUBLIC")
    && p.constraints.restrictedTo == [] && p.constraints.consentValidUntil.None?
    && p.trustee == (if kbsUrl == "" then None else Some(Trustee(kbsUrl, KeyPath(d))))
    && p.signature.value == NoValue && p.signature.signedAt.None? && p.signature.withdrawnAt.None?
  }

  /** The infra's party: as selected but for the GPU, open to all, and unsigned. */
  predicate IsInfraOf(p: InfraProviderParty, f: InfraInput) {
    && p.id == f.id && p.name == (if f.name == "" then "Unknown Infrastructure" else f.name)
    && p.region == f.region && p.attestation == f.attestation
    && p.resourceAllocation == f.allocation.(gpu := "")
    && p.constraints == Constraints("PUBLIC", [], None) && p.signature.value == NoValue
  }

  /** One party per dataset. */
  lemma GeneratedDatasets(a: Authority, g: GenerateInput)
    ensures var c := StoredGenerated(a, g);
      && |c.dataProviders| == |g.datasets|
      && forall i :: 0 <= i < |g.datasets| ==> IsPartyOf(c.dataProviders[i], g.kbsUrl, g.datasets[i])
  {
    hide HashContract, NeedsJobApproval, GeneratedWorkload, InfraParties, AppParties;
  }

  /** For a TEE or SMPC run one party per infra, or one without an id when none is selected; and the application's. */
  lemma GeneratedOthers(a: Authority, g: GenerateInput)
    ensures var c := StoredGenerated(a, g);
      && (g.technique != "TEE" && g.technique != "SMPC" ==> c.infraProviders == [])
      && ((g.technique == "TEE" || g.technique == "SMPC") && g.infras == [] ==>
            |c.infraProviders| == 1 && c.infraProviders[0].id == "" && c.infraProviders[0].signature.value == NoValue)
      && ((g.technique == "TEE" || g.technique == "SMPC") && g.infras != [] ==>
            && |c.infraProviders| == |g.infras|
            && forall i :: 0 <= i < |g.infras| ==> IsInfraOf(c.infraProviders[i], g.infras[i]))
      && (g.applicationId == "" ==> c.applicationProviders == [])
      && (g.applicationId != "" ==>
            && |c.applicationProviders| == 1 && c.applicationProviders[0].id == g.applicationId
            && c.applicationProviders[0].appName == g.applicationId)
  {
    hide HashContract, NeedsJobApproval, GeneratedWorkload, DataParties;
  }

  /** The terms taken over from the request, ninety days from now, and a compute choice for every technique. */
  lemma GeneratedTerms(a: Authority, g: GenerateInput)
    ensures var c := StoredGenerated(a, g);
      && c.contractId == g.contractId && c.jobId == g.jobId && c.version == 1
      && c.technique == g.technique && c.purpose == g.purpose
      && c.user.id == g.consumerId && c.user.name == g.consumerName && c.user.datablobUrl == g.resultUrl
      && c.lifecycle == Lifecycle(g.now, g.now, g.now + 7776000, None)
      && c.computeChoice == (if g.computeChoice != "" then g.computeChoice
                             else match g.technique
                                  case "FL" => "FEDERATED_LEARNING"
                                  case "TEE" => "ANONYMIZATION"
                                  case "SMPC" => "SECURE_MULTIPARTY_COMPUTATION"
                                  case _ => "")
  {
    hide HashContract, NeedsJobApproval, GeneratedWorkload, DataParties, InfraParties, AppParties;
  }

  /** A workload exactly for a known application, with the dataset's and the result's URL in its environment. */
  lemma WorkloadExactly(g: GenerateInput, ps: seq<DataProviderParty>)
    ensures var workload := GeneratedWorkload(g, ps);
      && (workload.Some? <==> g.applicationId in KNOWN_WORKLOADS)
      && (workload.Some? ==>
            var env := workload.value.env;
            && workload.value.image == KNOWN_WORKLOADS[g.applicationId].image
            && workload.value.resources == KNOWN_WORKLOADS[g.applicationId].resources
            && (DATASET_URL in env <==> ps != [] && ps[0].dataUrl != "")
            && (DATASET_URL in env ==> env[DATASET_URL] == ps[0].dataUrl)
            && (RESULT_URL in env <==> g.resultUrl != "") && (RESULT_URL in env ==> env[RESULT_URL] == g.resultUrl)
            && env.Keys <= {DATASET_URL, RESULT_URL})
  {
    EmptyIsUnknown();
    assert DATASET_URL[0] == 'D' && RESULT_URL[0] == 'R';
  }

  /** With it, and only with it, the first dataset's trustee and a callback are on the contract. */
  lemma GeneratedRun(a: Authority, g: GenerateInput)
    ensures var c := StoredGenerated(a, g);
      && c.workload == GeneratedWorkload(g, c.dataProviders)
      && c.trustee == (if c.workload.Some? && c.dataProviders != [] then c.dataProviders[0].trustee else None)
      && c.callbackUrl == (if c.workload.Some? && g.callbackUrl != "" then g.callbackUrl + "/" + g.contractId else "")
  {
    hide HashContract, NeedsJobApproval, GeneratedWorkload, DataParties, InfraParties, AppParties;
  }

  lemma EmptyIsUnknown()
    ensures "" !in KNOWN_WORKLOADS
  {
    assert forall id <- KNOWN_WORKLOADS :: |id| > 0;
  }

  /** What the layer does with it: its own hash, and its signature at once unless providers approve the job first. */
  lemma GeneratedSeal(a: Authority, g: GenerateInput)
    ensures var c := StoredGenerated(a, g);
      && c.contractHash == HashContract(c) && c.amendment.None?
      && c.governance ==
           if Verification.UnderJobApproval(c) || g.technique == "FL" || a.govKey.None? then None
           else Some(Signature(Some(g.now), "governance-layer", "RSASSA-PKCS1-v1_5-SHA256", c.contractHash,
                               SignedBy(a.govKey.value, c.contractHash), None))
  {
    hide HashContract;
    var c := GeneratedContract(g);
    GeneratedIsFresh(a, g);
    Verification.NeedsJobApprovalExactly(c);
    Verification.NeedsJobApprovalExactly(StoredGenerated(a, g));
  }

  /** The roster's parties and terms, the accepted signing times of the previous contract carried over by name. */
  lemma RosterFields(a: Authority, g: RosterInput, prior: map<string, Time>)
    ensures var c := StoredRoster(a, g, prior);
      && (c.None? <==> g.finalize && a.govKey.None?)
      && (c.Some? ==>
            var d := c.value;
            && d.technique == "FL" && d.version == (if g.finalize then 2 else 1)
            && d.contractId == g.contractId && d.jobId == g.jobId && d.projectId == g.projectId
            && d.sessionInfo.sessionId == g.submissionId
            && d.user.id == (if g.ownerId != "" then g.ownerId else g.submissionId)
            && d.lifecycle == Lifecycle(g.now, g.now, g.now + (if g.validity > 0 then g.validity else 7776000), None)
            && |d.dataProviders| == |g.parties|
            && (forall i :: 0 <= i < |g.parties| ==>
                  var p, q := d.dataProviders[i], g.parties[i];
                  && p.id == q.id && p.name == q.username && p.datasetName == q.datasetName && p.dataUrl == q.dataUrl
                  && p.signature.value == NoValue
                  && p.signature.signedAt == (if q.username in prior then Some(prior[q.username]) else None))
            && d.infraProviders == [] && d.contractHash == HashContract(d)
            && (d.governance.Some? <==> g.finalize))
  {
    hide HashContract, NeedsJobApproval;
    RosterIsFresh(a, g, prior);
  }
}
