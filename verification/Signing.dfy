/**
 * What each signing handler does to the stored contract, as functions
 * (contract_signing.go, consent_expiry.go, consent_withdrawal.go,
 * contract_edit.go). SigningServer runs them in place.
 */
module Signing {
  import opened Wrappers
  import opened Text
  import opened Contracts

  /** The governance layer's key, the registered provider keys and REQUIRE_INFRA_APPROVAL. */
  datatype Authority = Authority(govKey: Option<Key>, keys: map<string, Key>, requireInfra: bool)
  {
    function PublicKey(username: string): Option<Key> {
      if Lower(username) in keys then Some(keys[Lower(username)]) else None
    }
  }

  const GOVERNANCE_SIGNER := "governance-layer"

  predicate NeedsJobApproval(c: Contract) {
    |c.dataProviders| > 0 && exists i :: 0 <= i < |c.infraProviders| && c.infraProviders[i].id != ""
  }

  predicate Signable(c: Contract) {
    c.technique != "FL" || c.version >= 2
  }

  // ---- the governance layer's own signatures

  function LayerSignature(key: Key, hash: Hash, now: Time): Signature {
    Signature(Some(now), GOVERNANCE_SIGNER, ALGORITHM, hash, SignedBy(key, hash), None)
  }

  function GovernanceSign(c: Contract, key: Key, now: Time): Contract {
    c.(governance := Some(LayerSignature(key, c.contractHash, now)))
  }

  function AmendSign(c: Contract, key: Key, now: Time): Contract {
    c.(amendment := Some(LayerSignature(key, HashContract(c), now)))
  }

  predicate GovernanceSignatureValid(a: Authority, c: Contract, hash: Hash) {
    && a.govKey.Some? && c.governance.Some?
    && c.governance.value.signedHash == hash
    && Verifies(a.govKey.value, hash, c.governance.value.value)
  }

  predicate GovernanceSignatureOk(a: Authority, c: Contract, hash: Hash) {
    NeedsJobApproval(c) || GovernanceSignatureValid(a, c, hash)
  }

  predicate AmendmentValid(a: Authority, c: Contract, hash: Hash) {
    && a.govKey.Some? && c.amendment.Some? && hash != NoHash
    && c.amendment.value.signedHash == hash
    && Verifies(a.govKey.value, hash, c.amendment.value.value)
  }

  predicate ContentMatches(a: Authority, c: Contract) {
    HashContract(c) == c.contractHash || AmendmentValid(a, c, HashContract(c))
  }

  // ---- verification

  datatype SigError =
    | NoError | ConsentWithdrawn | NotSigned | ContentChanged | DifferentHash
    | SignerMismatch | KeyLookupFailed | DoesNotVerify

  datatype PartyStatus = PartyStatus(
    providerId: string, datasetName: string, infraId: string,
    signed: bool, signer: string, error: SigError)

  predicate Valid(st: PartyStatus) {
    st.error == NoError
  }

  /** How one recorded signature fares against hash; want is the provider_id it must belong to ("" for any). */
  function CheckSignature(a: Authority, sig: Signature, hash: Hash, hashOk: bool, want: string): SigError {
    if sig.value == NoValue && sig.withdrawnAt.Some? then ConsentWithdrawn
    else if sig.value == NoValue then NotSigned
    else if !hashOk then ContentChanged
    else if sig.signedHash != hash then DifferentHash
    else if want != "" && ProviderIdForUsername(sig.signer) != want then SignerMismatch
    else if a.PublicKey(sig.signer).None? then KeyLookupFailed
    else if !Verifies(a.PublicKey(sig.signer).value, hash, sig.value) then DoesNotVerify
    else NoError
  }

  function DataProviderStatus(a: Authority, p: DataProviderParty, hash: Hash, hashOk: bool): PartyStatus {
    PartyStatus(PartyProviderId(p), p.datasetName, "", p.signature.value != NoValue, p.signature.signer,
                CheckSignature(a, p.signature, hash, hashOk, PartyProviderId(p)))
  }

  function InfraStatus(a: Authority, ip: InfraProviderParty, hash: Hash, hashOk: bool, want: string): PartyStatus {
    PartyStatus(if ip.signature.signer != "" then ProviderIdForUsername(ip.signature.signer) else "",
                "", ip.id, ip.signature.value != NoValue, ip.signature.signer,
                CheckSignature(a, ip.signature, hash, hashOk, want))
  }

  function OwnerOf(owners: map<string, string>, infraId: string): string {
    if infraId in owners then owners[infraId] else ""
  }

  function DataProviderStatuses(a: Authority, ps: seq<DataProviderParty>, hash: Hash,
                                hashOk: bool): (r: seq<PartyStatus>)
    ensures |r| == |ps|
  {
    seq(|ps|, i requires 0 <= i < |ps| => DataProviderStatus(a, ps[i], hash, hashOk))
  }

  /** One status per infra that has an id, in contract order. */
  function InfraStatuses(a: Authority, ips: seq<InfraProviderParty>, hash: Hash, hashOk: bool,
                         owners: map<string, string>): seq<PartyStatus>
  {
    if ips == [] then []
    else
      var init, last := ips[..|ips| - 1], ips[|ips| - 1];
      InfraStatuses(a, init, hash, hashOk, owners) +
      (if last.id == "" then [] else [InfraStatus(a, last, hash, hashOk, OwnerOf(owners, last.id))])
  }

  function ProviderStatuses(a: Authority, c: Contract, hash: Hash, hashOk: bool,
                            owners: map<string, string>): seq<PartyStatus>
  {
    DataProviderStatuses(a, c.dataProviders, hash, hashOk) +
    (if NeedsJobApproval(c) && a.requireInfra
     then InfraStatuses(a, c.infraProviders, hash, hashOk, owners) else [])
  }

  predicate AllValid(sts: seq<PartyStatus>) {
    forall i :: 0 <= i < |sts| ==> Valid(sts[i])
  }

  lemma AllValidNone()
    ensures AllValid([])
  {
  }

  lemma AllValidJoins(xs: seq<PartyStatus>, ys: seq<PartyStatus>)
    ensures AllValid(xs + ys) <==> AllValid(xs) && AllValid(ys)
  {
    if AllValid(xs + ys) {
      assert forall i :: 0 <= i < |xs| ==> (xs + ys)[i] == xs[i];
      assert forall i :: 0 <= i < |ys| ==> (xs + ys)[|xs| + i] == ys[i];
    }
  }

  lemma AllValidGrows(sts: seq<PartyStatus>, st: PartyStatus)
    ensures AllValid(sts + [st]) <==> AllValid(sts) && Valid(st)
  {
    AllValidJoins(sts, [st]);
    assert AllValid([st]) <==> Valid([st][0]);
  }

  function ContractStatuses(a: Authority, c: Contract): seq<PartyStatus> {
    ProviderStatuses(a, c, c.contractHash, ContentMatches(a, c), map[])
  }

  /** verifyContractSignatures' verdict. */
  predicate ContractVerified(a: Authority, c: Contract) {
    && AllValid(ContractStatuses(a, c))
    && ContentMatches(a, c)
    && GovernanceSignatureOk(a, c, c.contractHash)
    && |c.dataProviders| > 0
  }

  /** consentExpiryError is nil: no data provider's consent lies before now. */
  predicate ConsentCurrent(c: Contract, now: Time) {
    forall i :: 0 <= i < |c.dataProviders| ==>
      var u := c.dataProviders[i].constraints.consentValidUntil;
      u.Some? ==> now <= u.value
  }

  datatype GateVerdict = Passed | NotFinalRoster | HashMismatch | NoGovernance | WaitingOnProviders | ConsentExpired

  /** requireAllProvidersSigned on a stored contract. */
  function Gate(a: Authority, c: Contract, now: Time): GateVerdict {
    if !Signable(c) then NotFinalRoster
    else if !ContentMatches(a, c) then HashMismatch
    else if !GovernanceSignatureOk(a, c, c.contractHash) then NoGovernance
    else if !ContractVerified(a, c) then WaitingOnProviders
    else if !ConsentCurrent(c, now) then ConsentExpired
    else Passed
  }

  // ---- handlers

  datatype Reply = Accepted | Refused(code: string)

  datatype Outcome = Outcome(contract: Contract, reply: Reply)

  function Refuse(c: Contract, code: string): Outcome {
    Outcome(c, Refused(code))
  }

  predicate IsParty(c: Contract, providerId: string) {
    exists i :: 0 <= i < |c.dataProviders| && PartyProviderId(c.dataProviders[i]) == providerId
  }

  predicate HasSigned(c: Contract, providerId: string) {
    exists i :: 0 <= i < |c.dataProviders| && PartyProviderId(c.dataProviders[i]) == providerId
      && c.dataProviders[i].signature.value != NoValue
  }

  // -- POST /contracts/{id}/sign

  datatype SignRequest = SignRequest(
    username: string,         // from the token
    claimedUsername: string,  // the body's provider_username
    hash: Hash,
    value: SigValue,
    jobAccepted: bool)        // the contract's job is approved (asked only when it needs approval)

  /** The hash a provider signs: the content's own, or ContractHash when the content is a valid amendment of it. */
  function HashToSign(a: Authority, c: Contract): Hash {
    var hash := HashContract(c);
    if hash != c.contractHash && AmendmentValid(a, c, hash) then c.contractHash else hash
  }

  function ProviderSignature(r: SignRequest, now: Time): Signature {
    Signature(Some(now), r.username, ALGORITHM, r.hash, r.value, None)
  }

  function WithSignature(ps: seq<DataProviderParty>, providerId: string, sig: Signature): (r: seq<DataProviderParty>)
    ensures |r| == |ps|
  {
    seq(|ps|, i requires 0 <= i < |ps| =>
      if PartyProviderId(ps[i]) == providerId then ps[i].(signature := sig) else ps[i])
  }

  function SignContract(a: Authority, c: Contract, r: SignRequest, now: Time): Outcome {
    var providerId := ProviderIdForUsername(r.username);
    if r.claimedUsername != "" && !EqualFold(r.claimedUsername, r.username) then Refuse(c, "SIGNER_MISMATCH")
    else if r.hash == NoHash || r.value == NoValue then Refuse(c, "MISSING_FIELDS")
    else if !Signable(c) then Refuse(c, "CONTRACT_NOT_SIGNABLE")
    else if NeedsJobApproval(c) && !r.jobAccepted then Refuse(c, "JOB_NOT_APPROVED")
    else if HashToSign(a, c) != c.contractHash || HashToSign(a, c) != r.hash then Refuse(c, "HASH_MISMATCH")
    else if !GovernanceSignatureValid(a, c, r.hash) then Refuse(c, "NO_GOVERNANCE_SIGNATURE")
    else if !IsParty(c, providerId) then Refuse(c, "NOT_A_PARTY")
    else if a.PublicKey(r.username).None? then Refuse(c, "NO_PUBLIC_KEY")
    else if !Verifies(a.PublicKey(r.username).value, r.hash, r.value) then Refuse(c, "INVALID_SIGNATURE")
    else Outcome(c.(dataProviders := WithSignature(c.dataProviders, providerId, ProviderSignature(r, now))), Accepted)
  }

  // -- POST /contracts/{id}/withdraw-consent

  function Withdrawn(sig: Signature, username: string, now: Time): Signature {
    sig.(signedAt := None, algorithm := "", signedHash := NoHash, value := NoValue,
         signer := username, withdrawnAt := Some(now))
  }

  function WithWithdrawal(ps: seq<DataProviderParty>, providerId: string, username: string, now: Time):
    (r: seq<DataProviderParty>)
    ensures |r| == |ps|
  {
    seq(|ps|, i requires 0 <= i < |ps| =>
      if PartyProviderId(ps[i]) == providerId
      then ps[i].(signature := Withdrawn(ps[i].signature, username, now)) else ps[i])
  }

  function WithdrawConsent(c: Contract, username: string, now: Time): Outcome {
    var providerId := ProviderIdForUsername(username);
    if c.technique != "TEE" then Refuse(c, "WITHDRAWAL_NOT_SUPPORTED")
    else if !IsParty(c, providerId) then Refuse(c, "NOT_A_PARTY")
    else if !HasSigned(c, providerId) then Refuse(c, "NOT_SIGNED")
    else Outcome(c.(dataProviders := WithWithdrawal(c.dataProviders, providerId, username, now)), Accepted)
  }

  // -- POST /contracts/{id}/consent-expiry

  /** The contract's own end, before any consent expiry shortened it. */
  function RequestedEnd(c: Contract): Time {
    c.lifecycle.requestedValidUntil.GetOr(c.lifecycle.validUntil)
  }

  function Cleared(sig: Signature): Signature {
    if sig.value == NoValue then sig
    else sig.(signedAt := None, algorithm := "", signedHash := NoHash, value := NoValue)
  }

  function WithExpiry(ps: seq<DataProviderParty>, providerId: string, until: Time): (r: seq<DataProviderParty>)
    ensures |r| == |ps|
  {
    seq(|ps|, i requires 0 <= i < |ps| =>
      var p := ps[i].(signature := Cleared(ps[i].signature));
      if PartyProviderId(ps[i]) == providerId
      then p.(constraints := p.constraints.(consentValidUntil := Some(until))) else p)
  }

  /** The earliest consent expiry any of ps set, or fallback when that is earlier or none is set. */
  function EarliestConsentExpiry(ps: seq<DataProviderParty>, fallback: Time): Time {
    if ps == [] then fallback
    else
      var out := EarliestConsentExpiry(ps[..|ps| - 1], fallback);
      var u := ps[|ps| - 1].constraints.consentValidUntil;
      if u.Some? && (out == ZERO_TIME || u.value < out) then u.value else out
  }

  function Rehash(c: Contract): Contract {
    c.(contractHash := HashContract(c))
  }

  function ExpiryApplied(c: Contract, providerId: string, until: Time): Contract {
    var end := RequestedEnd(c);
    var ps := WithExpiry(c.dataProviders, providerId, until);
    var requested := if c.lifecycle.requestedValidUntil.None? && end != ZERO_TIME
                     then Some(end) else c.lifecycle.requestedValidUntil;
    c.(dataProviders := ps,
       lifecycle := c.lifecycle.(requestedValidUntil := requested, validUntil := EarliestConsentExpiry(ps, end)))
  }

  function SetConsentExpiry(a: Authority, c: Contract, username: string, until: Option<Time>, now: Time): Outcome {
    var providerId := ProviderIdForUsername(username);
    if until.None? then Refuse(c, "BAD_REQUEST")
    else if c.technique != "TEE" && c.technique != "SMPC" then Refuse(c, "NOT_SUPPORTED")
    else if NeedsJobApproval(c) || c.governance.None? || a.govKey.None? then Refuse(c, "NOT_SUPPORTED")
    else if !IsParty(c, providerId) then Refuse(c, "NOT_A_PARTY")
    else if HasSigned(c, providerId) then Refuse(c, "ALREADY_SIGNED")
    else if until.value <= now then Refuse(c, "BAD_REQUEST")
    else if RequestedEnd(c) != ZERO_TIME && until.value > RequestedEnd(c) then Refuse(c, "BAD_REQUEST")
    else Outcome(GovernanceSign(Rehash(ExpiryApplied(c, providerId, until.value)), a.govKey.value, now), Accepted)
  }

  /** The providers whose recorded signature a set-expiry clears, asked again with the new hash. */
  function Resigners(c: Contract): set<string> {
    set i | 0 <= i < |c.dataProviders| && c.dataProviders[i].signature.value != NoValue
      :: PartyProviderId(c.dataProviders[i])
  }

  // -- accepting a participation notification (SignDataProviderParty)

  function WithInvite(ps: seq<DataProviderParty>, username: string, now: Time): (r: seq<DataProviderParty>)
    ensures |r| == |ps|
  {
    seq(|ps|, i requires 0 <= i < |ps| =>
      if ps[i].name == username && ps[i].signature.signedAt.None?
      then ps[i].(signature := ps[i].signature.(signedAt := Some(now))) else ps[i])
  }

  function AcceptInvite(c: Contract, username: string, now: Time): Contract {
    c.(dataProviders := WithInvite(c.dataProviders, username, now))
  }

  // -- PUT /contracts/{id}

  /** An optional time in the body: absent or blank, unparsable, or a time. */
  datatype TimeField = Unset | Malformed | At(time: Time)

  datatype LifecycleEdit = LifecycleEdit(validFrom: TimeField, validUntil: TimeField)

  datatype DataProviderEdit = DataProviderEdit(
    datasetName: Option<string>, datasetVersion: Option<string>,
    dataUrl: Option<string>, keyResourcePath: Option<string>)

  datatype WorkloadEdit = WorkloadEdit(
    id: Option<string>, image: Option<string>, cpu: Option<string>, memory: Option<string>)

  datatype EditRequest = EditRequest(
    sub: string,  // from the token
    lifecycle: Option<LifecycleEdit>,
    userName: Option<string>,
    dataProviders: seq<DataProviderEdit>,
    workload: Option<WorkloadEdit>)

  datatype Change =
    | TextChange(field: string, index: nat, before: string, after: string)
    | TimeChange(field: string, start: Time, end: Time)

  datatype KnownWorkload = KnownWorkload(image: string, resources: WorkloadResources)

  const KNOWN_WORKLOADS: map<string, KnownWorkload> := map[
    "credits-evaluation" := KnownWorkload(
      "docker.io/rohithvaidya/mnist-vault-workload@sha256:e155df758090022a9ca9d1ff6574bf7e5c3d1975c7e14f5d62f4a11054bbddd8",
      WorkloadResources("250m", "512Mi")),
    "market-offer-generation" := KnownWorkload(
      "docker.io/rohithvaidya/logreg-workload@sha256:5ad1cbf6079130b3f1ae527246ebf629ca435b919ed1ca9e39c9b7e780df5525",
      WorkloadResources("250m", "512Mi"))]

  /** The new value of a text field, trimmed; the old one when the edit leaves it out. */
  function NewText(was: string, v: Option<string>): string {
    if v.Some? then TrimSpace(v.value) else was
  }

  function TextChanges(field: string, index: nat, was: string, v: Option<string>): seq<Change> {
    if NewText(was, v) != was then [TextChange(field, index, was, NewText(was, v))] else []
  }

  function NewTime(was: Time, v: TimeField): Time {
    if v.At? then v.time else was
  }

  function TimeChanges(field: string, was: Time, v: TimeField): seq<Change> {
    if NewTime(was, v) != was then [TimeChange(field, was, NewTime(was, v))] else []
  }

  /** An edit in progress: the contract so far and what changed, or why it was refused. */
  datatype Draft = Draft(contract: Contract, changes: seq<Change>) | NotEditable(code: string)

  function EditLifecycle(c: Contract, e: LifecycleEdit): Draft {
    if e.validFrom.Malformed? || e.validUntil.Malformed? then NotEditable("BAD_REQUEST")
    else
      var from, until := NewTime(c.lifecycle.validFrom, e.validFrom), NewTime(c.lifecycle.validUntil, e.validUntil);
      if until < from then NotEditable("BAD_REQUEST")
      else Draft(c.(lifecycle := c.lifecycle.(validFrom := from, validUntil := until)),
                 TimeChanges("lifecycle.valid_from", c.lifecycle.validFrom, e.validFrom) +
                 TimeChanges("lifecycle.valid_until", c.lifecycle.validUntil, e.validUntil))
  }

  const NO_TRUSTEE := Trustee("", "")

  function EditDataProvider(p: DataProviderParty, e: DataProviderEdit): DataProviderParty {
    var q := p.(datasetName := NewText(p.datasetName, e.datasetName),
                datasetVersion := NewText(p.datasetVersion, e.datasetVersion),
                dataUrl := NewText(p.dataUrl, e.dataUrl));
    if e.keyResourcePath.None? then q
    else
      var t := p.trustee.GetOr(NO_TRUSTEE);
      q.(trustee := Some(t.(keyResourcePath := NewText(t.keyResourcePath, e.keyResourcePath))))
  }

  function DataProviderChanges(i: nat, p: DataProviderParty, e: DataProviderEdit): seq<Change> {
    TextChanges("dataset_name", i, p.datasetName, e.datasetName) +
    TextChanges("dataset_version", i, p.datasetVersion, e.datasetVersion) +
    TextChanges("data_url", i, p.dataUrl, e.dataUrl) +
    TextChanges("key_resource_path", i, p.trustee.GetOr(NO_TRUSTEE).keyResourcePath, e.keyResourcePath)
  }

  function EditDataProviders(ps: seq<DataProviderParty>, es: seq<DataProviderEdit>): (r: seq<DataProviderParty>)
    requires |es| <= |ps|
    ensures |r| == |ps|
  {
    seq(|ps|, i requires 0 <= i < |ps| => if i < |es| then EditDataProvider(ps[i], es[i]) else ps[i])
  }

  function AllDataProviderChanges(ps: seq<DataProviderParty>, es: seq<DataProviderEdit>): seq<Change>
    requires |es| <= |ps|
  {
    if es == [] then []
    else
      var n := |es| - 1;
      AllDataProviderChanges(ps, es[..n]) + DataProviderChanges(n, ps[n], es[n])
  }

  function FirstAppId(c: Contract): string {
    if c.applicationProviders == [] then "" else c.applicationProviders[0].id
  }

  function WithFirstApp(c: Contract, app: ApplicationProviderParty): Contract
    requires c.applicationProviders != []
  {
    c.(applicationProviders := c.applicationProviders[0 := app])
  }

  /** Switching to workload id: its catalogue image and resources, and the application party renamed. */
  function SwitchWorkload(c: Contract, id: string): Contract
    requires c.workload.Some?
  {
    var w := c.workload.value;
    var w' := if id in KNOWN_WORKLOADS
              then w.(image := KNOWN_WORKLOADS[id].image, resources := KNOWN_WORKLOADS[id].resources) else w;
    var c' := c.(workload := Some(w'));
    if c.applicationProviders == [] then c'
    else WithFirstApp(c', c.applicationProviders[0].(id := id, appName := id, containerImage := w'.image))
  }

  /** The catalogue id an edit switches to, trimmed; "" when it names none. */
  function RequestedWorkloadId(e: WorkloadEdit): string {
    TrimSpace(e.id.GetOr(""))
  }

  function OverrideWorkload(c: Contract, e: WorkloadEdit): (r: Contract)
    requires c.workload.Some?
    ensures r.workload.Some?
  {
    var w := c.workload.value;
    var w' := w.(image := NewText(w.image, e.image),
                 resources := WorkloadResources(NewText(w.resources.cpu, e.cpu),
                                                NewText(w.resources.memory, e.memory)));
    var c' := c.(workload := Some(w'));
    if c.applicationProviders == [] then c'
    else WithFirstApp(c', c.applicationProviders[0].(containerImage := w'.image))
  }

  function OverrideChanges(w: Workload, e: WorkloadEdit): seq<Change> {
    TextChanges("workload.image", 0, w.image, e.image) +
    TextChanges("workload.cpu", 0, w.resources.cpu, e.cpu) +
    TextChanges("workload.memory", 0, w.resources.memory, e.memory)
  }

  function EditWorkload(c: Contract, e: WorkloadEdit): Draft {
    var id := RequestedWorkloadId(e);
    if c.workload.None? then NotEditable("BAD_REQUEST")
    else if id != "" && id !in KNOWN_WORKLOADS && TrimSpace(e.image.GetOr("")) == ""
    then NotEditable("UNKNOWN_WORKLOAD")
    else
      var switching := id != "" && id != FirstAppId(c);
      var c' := if switching then SwitchWorkload(c, id) else c;
      Draft(OverrideWorkload(c', e),
            (if switching then [TextChange("workload", 0, FirstAppId(c), id)] else []) +
            OverrideChanges(c'.workload.value, e))
  }

  /** Keeps the workload env and the contract-level trustee in step with the first dataset. */
  function SyncDerived(c: Contract): Contract {
    if c.dataProviders == [] then c
    else
      var first := c.dataProviders[0];
      var workload := if c.workload.Some? && DATASET_URL in c.workload.value.env
                      then Some(c.workload.value.(env := c.workload.value.env[DATASET_URL := first.dataUrl]))
                      else c.workload;
      var trustee := if c.trustee.Some? && first.trustee.Some?
                     then Some(c.trustee.value.(keyResourcePath := first.trustee.value.keyResourcePath))
                     else c.trustee;
      c.(workload := workload, trustee := trustee)
  }

  function EditParties(d: Draft, r: EditRequest): Draft
    requires d.Draft? && |r.dataProviders| <= |d.contract.dataProviders|
  {
    var c := d.contract;
    Draft(c.(user := c.user.(name := NewText(c.user.name, r.userName)),
             dataProviders := EditDataProviders(c.dataProviders, r.dataProviders)),
          d.changes + TextChanges("user.name", 0, c.user.name, r.userName)
            + AllDataProviderChanges(c.dataProviders, r.dataProviders))
  }

  function LifecycleDraft(c: Contract, r: EditRequest): Draft {
    if r.lifecycle.Some? then EditLifecycle(c, r.lifecycle.value) else Draft(c, [])
  }

  function WorkloadDraft(c: Contract, r: EditRequest): Draft {
    if r.workload.Some? then EditWorkload(c, r.workload.value) else Draft(c, [])
  }

  /** The edited contract before it is signed, with the list of changes. */
  function EditDraft(c: Contract, r: EditRequest): Draft
    requires |r.dataProviders| <= |c.dataProviders|
  {
    var d0 := LifecycleDraft(c, r);
    if d0.NotEditable? then d0
    else
      var d1 := EditParties(d0, r);
      var d2 := WorkloadDraft(d1.contract, r);
      if d2.NotEditable? then d2
      else Draft(SyncDerived(d2.contract), d1.changes + d2.changes)
  }

  function EditContract(a: Authority, c: Contract, r: EditRequest, now: Time): Outcome {
    if r.sub == "" || !EqualFold(r.sub, c.user.id) then Refuse(c, "NOT_CONTRACT_OWNER")
    else if c.technique != "TEE" then Refuse(c, "EDIT_NOT_SUPPORTED")
    else if |r.dataProviders| > |c.dataProviders| then Refuse(c, "BAD_REQUEST")
    else
      var d := EditDraft(c, r);
      if d.NotEditable? then Refuse(c, d.code)
      else if d.changes == [] then Refuse(c, "NO_CHANGES")
      else if a.govKey.None? then Refuse(c, "INTERNAL_ERROR")
      else Outcome(AmendSign(d.contract, a.govKey.value, now), Accepted)
  }
}
