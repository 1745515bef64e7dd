/**
 * The canonical contract (internal/contract/contract.go).
 *
 * Cryptography is symbolic: a hash is the blanked contract it was computed
 * from, and a signature value is the pair (key, hash). A key stands for both
 * halves of an RSA pair. Times are integers; 0 is Go's zero time.
 */
module Contracts {
  import opened Wrappers
  import opened Text

  type Time = int
  const ZERO_TIME: Time := 0

  type Key = string

  datatype Hash = NoHash | HashOf(content: Contract) | OtherHash(text: string)

  datatype SigValue = NoValue | SignedBy(key: Key, hash: Hash) | OtherValue(text: string)

  const ALGORITHM := "RSASSA-PKCS1-v1_5-SHA256"

  /** VerifyContractHashSignature: v is a signature by pub's private half over hash. */
  predicate Verifies(pub: Key, hash: Hash, v: SigValue) {
    v == SignedBy(pub, hash)
  }

  datatype Signature = Signature(
    signedAt: Option<Time>,
    signer: string,
    algorithm: string,
    signedHash: Hash,
    value: SigValue,
    withdrawnAt: Option<Time>)

  const BLANK_SIGNATURE := Signature(None, "", "", NoHash, NoValue, None)

  datatype Constraints = Constraints(
    accessibilityLevel: string,
    restrictedTo: seq<string>,
    consentValidUntil: Option<Time>)

  datatype UserParty = UserParty(id: string, name: string, datablobUrl: string, signature: Signature)

  datatype Trustee = Trustee(kbsUrl: string, keyResourcePath: string)

  datatype DataProviderParty = DataProviderParty(
    id: string,
    name: string,
    datasetId: string,
    datasetName: string,
    datasetVersion: string,
    dataUrl: string,
    constraints: Constraints,
    trustee: Option<Trustee>,
    signature: Signature)

  datatype ApplicationProviderParty = ApplicationProviderParty(
    id: string,
    name: string,
    appName: string,
    containerImage: string,
    containerDigest: string,
    constraints: Constraints,
    signature: Signature)

  datatype Attestation = Attestation(required: bool, service: string, policyId: string)

  datatype ResourceAllocation = ResourceAllocation(
    cpuCores: int,
    ramMb: int,
    gpu: string,
    sgxEnabled: bool,
    tdxEnabled: bool,
    sevSnpEnabled: bool,
    sevEnabled: bool,
    nitroEnclaveEnabled: bool)

  datatype InfraProviderParty = InfraProviderParty(
    id: string,
    name: string,
    region: string,
    attestation: Attestation,
    resourceAllocation: ResourceAllocation,
    constraints: Constraints,
    signature: Signature)

  datatype WorkloadResources = WorkloadResources(cpu: string, memory: string)

  // A nil env map is the empty map: both print and reload the same.
  datatype Workload = Workload(image: string, resources: WorkloadResources, env: map<string, string>)

  datatype Lifecycle = Lifecycle(
    createdAt: Time,
    validFrom: Time,
    validUntil: Time,
    requestedValidUntil: Option<Time>)

  datatype SessionInfo = SessionInfo(id: string, sessionId: string, requestedBy: string)

  // The two party counts are always the lengths of their lists and are left out.
  datatype Contract = Contract(
    projectId: string,
    contractId: string,
    jobId: string,
    version: int,
    lifecycle: Lifecycle,
    technique: string,
    computeChoice: string,
    purpose: string,
    workload: Option<Workload>,
    trustee: Option<Trustee>,
    callbackUrl: string,
    user: UserParty,
    dataProviders: seq<DataProviderParty>,
    applicationProviders: seq<ApplicationProviderParty>,
    infraProviders: seq<InfraProviderParty>,
    sessionInfo: SessionInfo,
    contractHash: Hash,
    governance: Option<Signature>,
    amendment: Option<Signature>)

  /** The provider_id a data-provider party signs as. */
  function PartyProviderId(p: DataProviderParty): (id: string)
    ensures PROVIDER_PREFIX <= id
  {
    if PROVIDER_PREFIX <= p.id then p.id else ProviderIdForUsername(p.name)
  }

  // ---- hashing

  function BlankDataProviders(ps: seq<DataProviderParty>): (r: seq<DataProviderParty>)
    ensures |r| == |ps|
  {
    seq(|ps|, i requires 0 <= i < |ps| => ps[i].(signature := BLANK_SIGNATURE))
  }

  function BlankApplicationProviders(ps: seq<ApplicationProviderParty>): (r: seq<ApplicationProviderParty>)
    ensures |r| == |ps|
  {
    seq(|ps|, i requires 0 <= i < |ps| => ps[i].(signature := BLANK_SIGNATURE))
  }

  function BlankInfraProviders(ps: seq<InfraProviderParty>): (r: seq<InfraProviderParty>)
    ensures |r| == |ps|
  {
    seq(|ps|, i requires 0 <= i < |ps| => ps[i].(signature := BLANK_SIGNATURE))
  }

  /** c without its hash, its two governance-layer signatures and every party signature. */
  function Blank(c: Contract): Contract {
    c.(contractHash := NoHash,
       governance := None,
       amendment := None,
       user := c.user.(signature := BLANK_SIGNATURE),
       dataProviders := BlankDataProviders(c.dataProviders),
       applicationProviders := BlankApplicationProviders(c.applicationProviders),
       infraProviders := BlankInfraProviders(c.infraProviders))
  }

  function HashContract(c: Contract): Hash {
    HashOf(Blank(c))
  }

  predicate SameDataProvider(p: DataProviderParty, q: DataProviderParty) {
    && p.id == q.id && p.name == q.name && p.datasetId == q.datasetId
    && p.datasetName == q.datasetName && p.datasetVersion == q.datasetVersion
    && p.dataUrl == q.dataUrl && p.constraints == q.constraints && p.trustee == q.trustee
  }

  predicate SameApplicationProvider(p: ApplicationProviderParty, q: ApplicationProviderParty) {
    && p.id == q.id && p.name == q.name && p.appName == q.appName
    && p.containerImage == q.containerImage && p.containerDigest == q.containerDigest
    && p.constraints == q.constraints
  }

  predicate SameInfraProvider(p: InfraProviderParty, q: InfraProviderParty) {
    && p.id == q.id && p.name == q.name && p.region == q.region && p.attestation == q.attestation
    && p.resourceAllocation == q.resourceAllocation && p.constraints == q.constraints
  }

  predicate SameTerms(a: Contract, b: Contract) {
    && a.projectId == b.projectId && a.contractId == b.contractId && a.jobId == b.jobId
    && a.version == b.version && a.lifecycle == b.lifecycle && a.technique == b.technique
    && a.computeChoice == b.computeChoice && a.purpose == b.purpose && a.workload == b.workload
    && a.trustee == b.trustee && a.callbackUrl == b.callbackUrl && a.sessionInfo == b.sessionInfo
    && a.user.id == b.user.id && a.user.name == b.user.name && a.user.datablobUrl == b.user.datablobUrl
  }

  /** a and b agree on everything except hash and signature blocks, field by field. */
  ghost predicate SameUnsigned(a: Contract, b: Contract) {
    && SameTerms(a, b)
    && |a.dataProviders| == |b.dataProviders|
    && |a.applicationProviders| == |b.applicationProviders|
    && |a.infraProviders| == |b.infraProviders|
    && (forall i :: 0 <= i < |a.dataProviders| ==> SameDataProvider(a.dataProviders[i], b.dataProviders[i]))
    && (forall i :: 0 <= i < |a.applicationProviders| ==>
          SameApplicationProvider(a.applicationProviders[i], b.applicationProviders[i]))
    && (forall i :: 0 <= i < |a.infraProviders| ==>
          SameInfraProvider(a.infraProviders[i], b.infraProviders[i]))
  }

  /** Two contracts hash alike exactly when they differ in nothing but hash and signature blocks. */
  lemma HashIgnoresExactlySignatures(a: Contract, b: Contract)
    ensures HashContract(a) == HashContract(b) <==> SameUnsigned(a, b)
  {
    var x, y := Blank(a), Blank(b);
    if SameUnsigned(a, b) {
      assert x.dataProviders == y.dataProviders;
      assert x.applicationProviders == y.applicationProviders;
      assert x.infraProviders == y.infraProviders;
    }
    if x == y {
      forall i | 0 <= i < |a.dataProviders|
        ensures SameDataProvider(a.dataProviders[i], b.dataProviders[i])
      {
        assert x.dataProviders[i] == y.dataProviders[i];
      }
      forall i | 0 <= i < |a.applicationProviders|
        ensures SameApplicationProvider(a.applicationProviders[i], b.applicationProviders[i])
      {
        assert x.applicationProviders[i] == y.applicationProviders[i];
      }
      forall i | 0 <= i < |a.infraProviders|
        ensures SameInfraProvider(a.infraProviders[i], b.infraProviders[i])
      {
        assert x.infraProviders[i] == y.infraProviders[i];
      }
    }
  }

  /**
   * A contract as Go passes it: a struct copied by value whose three party
   * slices still alias the caller's arrays. scalars holds the other fields
   * (its own party lists are not used).
   */
  datatype ContractStruct = ContractStruct(
    scalars: Contract,
    dataProviders: array<DataProviderParty>,
    applicationProviders: array<ApplicationProviderParty>,
    infraProviders: array<InfraProviderParty>)
  {
    function View(): Contract
      reads dataProviders, applicationProviders, infraProviders
    {
      scalars.(dataProviders := dataProviders[..],
               applicationProviders := applicationProviders[..],
               infraProviders := infraProviders[..])
    }
  }

  method CopyDataProviders(a: array<DataProviderParty>) returns (b: array<DataProviderParty>)
    ensures fresh(b) && b[..] == BlankDataProviders(a[..])
  {
    b := new DataProviderParty[a.Length](i requires 0 <= i < a.Length reads a => a[i]);
    for i := 0 to b.Length
      invariant forall k :: 0 <= k < i ==> b[k] == a[k].(signature := BLANK_SIGNATURE)
      invariant forall k :: i <= k < b.Length ==> b[k] == a[k]
    {
      b[i] := b[i].(signature := BLANK_SIGNATURE);
    }
  }

  method CopyApplicationProviders(a: array<ApplicationProviderParty>) returns (b: array<ApplicationProviderParty>)
    ensures fresh(b) && b[..] == BlankApplicationProviders(a[..])
  {
    b := new ApplicationProviderParty[a.Length](i requires 0 <= i < a.Length reads a => a[i]);
    for i := 0 to b.Length
      invariant forall k :: 0 <= k < i ==> b[k] == a[k].(signature := BLANK_SIGNATURE)
      invariant forall k :: i <= k < b.Length ==> b[k] == a[k]
    {
      b[i] := b[i].(signature := BLANK_SIGNATURE);
    }
  }

  method CopyInfraProviders(a: array<InfraProviderParty>) returns (b: array<InfraProviderParty>)
    ensures fresh(b) && b[..] == BlankInfraProviders(a[..])
  {
    b := new InfraProviderParty[a.Length](i requires 0 <= i < a.Length reads a => a[i]);
    for i := 0 to b.Length
      invariant forall k :: 0 <= k < i ==> b[k] == a[k].(signature := BLANK_SIGNATURE)
      invariant forall k :: i <= k < b.Length ==> b[k] == a[k]
    {
      b[i] := b[i].(signature := BLANK_SIGNATURE);
    }
  }

  /**
   * ComputeHash: blanks its own copy of every slice. It modifies nothing the
   * caller can see, so the caller's contract is the same afterwards.
   */
  method ComputeHash(c: ContractStruct) returns (h: Hash)
    ensures h == HashContract(c.View())
    ensures c.View() == old(c.View())
  {
    var dataProviders := CopyDataProviders(c.dataProviders);
    var applicationProviders := CopyApplicationProviders(c.applicationProviders);
    var infraProviders := CopyInfraProviders(c.infraProviders);
    var scalars := c.scalars.(contractHash := NoHash, governance := None, amendment := None,
                              user := c.scalars.user.(signature := BLANK_SIGNATURE));
    h := HashOf(ContractStruct(scalars, dataProviders, applicationProviders, infraProviders).View());
  }

  // ---- the coordinator's sub-contract

  datatype SubContract = SubContract(
    contractId: string,
    workload: Option<Workload>,
    trustee: Option<Trustee>,
    callbackUrl: string)

  const DATASET_URL := "DATASET_URL"
  const RESULT_URL := "RESULT_URL"

  function EnvOf(c: Contract, name: string): string {
    if c.workload.Some? && name in c.workload.value.env then c.workload.value.env[name] else ""
  }

  function NewSubContract(c: Contract): (r: (SubContract, seq<string>))
  {
    var missing :=
      (if c.contractId == "" then ["contract_id"] else []) +
      (if c.workload.None? || c.workload.value.image == "" then ["workload.image"] else []) +
      (if EnvOf(c, DATASET_URL) == "" then ["workload.env.DATASET_URL"] else []) +
      (if c.trustee.None? || c.trustee.value.kbsUrl == "" || c.trustee.value.keyResourcePath == ""
       then ["trustee"] else []);
    (SubContract(c.contractId, c.workload, c.trustee, c.callbackUrl), missing)
  }
}
