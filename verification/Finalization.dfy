/**
 * From an approved job to its final contract (internal/httpapi/job_approval.go,
 * internal/db/final_contracts.go, internal/db/audit.go, internal/db/contracts.go):
 * what GET /job/{id}/status verifies, seals and stores, and the life of the
 * stored rows when its statements interleave with every other handler's.
 */
module Finalization {
  import opened Wrappers
  import opened Text
  import opened Contracts
  import opened Signing
  import opened Verification
  import SigningRuns
  import ContractGen
  import JobApproval
  import ApprovalRuns
  import Coverage

  // ---- verification and finalization agree

  /** owners[o.infraID] = o.providerID, in order. */
  function OwnerMap(owners: seq<JobApproval.InfraOwner>): map<string, string> {
    if owners == [] then map[]
    else OwnerMap(owners[..|owners| - 1])[owners[|owners| - 1].infraId := owners[|owners| - 1].providerId]
  }

  method BuildOwnerMap(owners: seq<JobApproval.InfraOwner>) returns (m: map<string, string>)
    ensures m == OwnerMap(owners)
  {
    m := map[];
    for i := 0 to |owners|
      invariant m == OwnerMap(owners[..i])
    {
      assert owners[..i + 1][..i] == owners[..i];
      m := m[owners[i].infraId := owners[i].providerId];
    }
    assert owners[..|owners|] == owners;
  }

  /** verifyJobSignatures gives no reasons. */
  predicate JobVerified(a: Authority, c: Contract, owners: map<string, string>) {
    var hash := JobApproval.SignedJobContractHash(a, c);
    hash.Some? && AllValid(ProviderStatuses(a, c, hash.value, true, owners))
  }

  // ---- what the verdict of a status call means

  /**
   * h is the hash the job's providers sign: the content's own when none is stored, else the stored
   * one, which the content must stand for; and every provider asked to sign it has, each infra's
   * owner being the one owners names.
   */
  ghost predicate SignedAsJob(a: Authority, c: Contract, owners: map<string, string>, h: Hash) {
    && (if c.contractHash == NoHash then h == HashContract(c) else h == c.contractHash && ContentStands(a, c))
    && ProvidersSigned(a, c, h, owners)
  }

  lemma SignedHashExactly(a: Authority, c: Contract, h: Hash)
    ensures JobApproval.SignedJobContractHash(a, c) == Some(h) <==>
      if c.contractHash == NoHash then h == HashContract(c) else h == c.contractHash && ContentStands(a, c)
  {
  }

  /** Main result: a job's signatures verify if and only if its providers signed one hash its content stands for. */
  lemma {:induction false} JobVerifiedExactly(a: Authority, c: Contract, owners: map<string, string>)
    ensures JobVerified(a, c, owners) <==> exists h :: SignedAsJob(a, c, owners, h)
  {
    hide ProviderStatuses, ProvidersSigned, AllValid, ContentStands, JobApproval.SignedJobContractHash;
    var hash := JobApproval.SignedJobContractHash(a, c);
    if JobVerified(a, c, owners) {
      SignedHashExactly(a, c, hash.value);
      StatusesMean(a, c, hash.value, owners);
      assert SignedAsJob(a, c, owners, hash.value);
    }
    if h :| SignedAsJob(a, c, owners, h) {
      SignedHashExactly(a, c, h);
      StatusesMean(a, c, h, owners);
    }
  }

  /** The map the status call builds gives each infra the owner its policy names, and nobody without one. */
  lemma {:induction false} OwnersAreThePolicies(ips: seq<InfraProviderParty>, policies: map<string, string>, id: string)
    requires id != "" && exists ip <- ips :: ip.id == id
    ensures OwnerOf(OwnerMap(JobApproval.InfraOwners(ips, policies)), id) == OwnerOf(policies, id)
  {
    var init, last := ips[..|ips| - 1], ips[|ips| - 1];
    var owners := JobApproval.InfraOwners(init, policies);
    assert ips == init + [last];
    if last.id != "" {
      assert (owners + [JobApproval.OwnerFrom(policies, last.id)])[..|owners|] == owners;
    } else {
      assert owners + [] == owners;
    }
    if last.id != id {
      OwnersAreThePolicies(init, policies, id);
    }
  }

  /** A job verifies under the owners resolved for its infras exactly when it does under their policies. */
  lemma {:induction false} VerifiedUnderPolicies(a: Authority, c: Contract, policies: map<string, string>)
    ensures JobVerified(a, c, OwnerMap(JobApproval.InfraOwners(c.infraProviders, policies))) <==>
      exists h :: SignedAsJob(a, c, policies, h)
  {
    hide JobVerified, DatasetsSigned, UnderJobApproval, ContentStands, VerifiedSignature, JobApproval.InfraOwners;
    var owners := OwnerMap(JobApproval.InfraOwners(c.infraProviders, policies));
    JobVerifiedExactly(a, c, owners);
    forall ip, h | ip in c.infraProviders ensures InfraSigned(a, ip, h, owners) <==> InfraSigned(a, ip, h, policies) {
      if ip.id != "" {
        OwnersAreThePolicies(c.infraProviders, policies, ip.id);
      }
    }
    forall h ensures SignedAsJob(a, c, owners, h) <==> SignedAsJob(a, c, policies, h) {
    }
  }

  /** sealContract on the loaded copy. */
  function Seal(c: Contract): Contract {
    if c.contractHash != NoHash then c else Rehash(c)
  }

  /** getJobStatus sets the job id before sealing. */
  function Stamped(c: Contract, jobId: string): Contract {
    c.(jobId := jobId)
  }

  lemma ProvidersValidWithoutOwners(a: Authority, c: Contract, hash: Hash, owners: map<string, string>)
    requires AllValid(ProviderStatuses(a, c, hash, true, owners))
    ensures AllValid(ProviderStatuses(a, c, hash, true, map[]))
  {
    hide ProviderStatuses, AllValid, UnderJobApproval;
    StatusesMean(a, c, hash, owners);
    StatusesMean(a, c, hash, map[]);
  }

  /** Sealing does not change what is hashed, and leaves the hash the providers signed. */
  lemma SealedHash(a: Authority, c: Contract)
    requires JobApproval.SignedJobContractHash(a, c).Some?
    ensures Seal(c).contractHash == JobApproval.SignedJobContractHash(a, c).value && ContentMatches(a, Seal(c))
    ensures Seal(c) == c.(contractHash := Seal(c).contractHash)
  {
    assert Blank(Seal(c)) == Blank(c);
  }

  /**
   * Main result: a job contract that already carries its job id and passes verification is
   * final once sealed, whether it had no stored hash, a matching one, or amended content.
   */
  lemma VerifiedJobIsFinal(a: Authority, c: Contract, owners: map<string, string>)
    requires NeedsJobApproval(c) && JobVerified(a, c, owners)
    ensures ContractVerified(a, Seal(Stamped(c, c.jobId)))
  {
    hide HashContract, ContentMatches, AmendmentValid;
    var hash, sealed := JobApproval.SignedJobContractHash(a, c).value, Seal(c);
    assert Stamped(c, c.jobId) == c;
    SealedHash(a, c);
    ProvidersValidWithoutOwners(a, c, hash, owners);
    assert ProviderStatuses(a, sealed, hash, true, map[]) == ProviderStatuses(a, c, hash, true, map[]);
  }

  /** Whether a verified job comes out final is whether its sealed contract verifies. */
  lemma {:induction false} SealedVerifies(a: Authority, c: Contract, owners: map<string, string>, jobId: string)
    requires NeedsJobApproval(c) && JobVerified(a, c, owners)
    ensures var sealed := Seal(Stamped(c, jobId));
      && (ContractVerified(a, sealed) <==> EverySignatureVerifies(a, sealed))
      && (c.jobId == jobId ==> ContractVerified(a, sealed))
  {
    hide ContractVerified, JobVerified, EverySignatureVerifies, HashContract;
    var sealed := Seal(Stamped(c, jobId));
    VerifiedMeans(a, sealed);
    NeedsJobApprovalExactly(c);
    assert UnderJobApproval(sealed);
    if c.jobId == jobId {
      VerifiedJobIsFinal(a, c, owners);
    }
  }

  /** The contents behind the stored hash and the amendment carry the job id the JSON carries. */
  predicate CarriesOwnJob(c: Contract) {
    && (c.contractHash.HashOf? ==> c.contractHash.content.jobId == c.jobId)
    && (c.amendment.Some? && c.amendment.value.signedHash.HashOf? ==>
          c.amendment.value.signedHash.content.jobId == c.jobId)
  }

  /**
   * A verified contract becomes final exactly when its JSON carries the job id: stamping a
   * missing one changes the content its providers signed.
   */
  lemma FinalIffJobIdInJson(a: Authority, c: Contract, owners: map<string, string>, jobId: string)
    requires NeedsJobApproval(c) && JobVerified(a, c, owners) && CarriesOwnJob(c)
    ensures ContractVerified(a, Seal(Stamped(c, jobId))) <==> c.jobId == jobId
  {
    if c.jobId == jobId {
      VerifiedJobIsFinal(a, c, owners);
    } else {
      hide CarriesOwnJob;
      var hash, d := JobApproval.SignedJobContractHash(a, c).value, Seal(Stamped(c, jobId));
      StampedElsewhere(a, c, jobId);
      if c.contractHash == NoHash {
        assert Valid(ProviderStatuses(a, c, hash, true, owners)[0]);
        assert c.dataProviders[0].signature.signedHash == hash;
        assert !Valid(ContractStatuses(a, d)[0]);
      }
    }
  }

  lemma StampedElsewhere(a: Authority, c: Contract, jobId: string)
    requires CarriesOwnJob(c) && c.jobId != jobId
    ensures var d := Seal(Stamped(c, jobId));
      if c.contractHash == NoHash then d.contractHash == HashContract(d) != HashContract(c) else !ContentMatches(a, d)
  {
    var d := Seal(Stamped(c, jobId));
    assert HashContract(d).content.jobId == jobId && HashContract(c).content.jobId == c.jobId;
    if c.contractHash == NoHash {
      assert Blank(d) == Blank(Stamped(c, jobId));
    }
  }

  /** Generated contracts carry their own job id throughout, and every call and edit keeps it so. */
  lemma {:induction false} RunsCarryOwnJob(env: JobApproval.JobEnv, s: JobApproval.JobState,
                                           reqs: seq<Coverage.TimedRequest>)
    requires CarriesOwnJob(s.contract)
    ensures CarriesOwnJob(Coverage.JobRun(env, s, reqs).contract)
    ensures Coverage.JobRun(env, s, reqs).contract.jobId == s.contract.jobId
  {
    if reqs != [] {
      hide Coverage.Step, CarriesOwnJob;
      var n := |reqs| - 1;
      RunsCarryOwnJob(env, s, reqs[..n]);
      StepCarriesOwnJob(env, Coverage.JobRun(env, s, reqs[..n]), reqs[n].0, reqs[n].1);
    }
  }

  lemma StepCarriesOwnJob(env: JobApproval.JobEnv, s: JobApproval.JobState, req: Coverage.Request, now: Time)
    requires CarriesOwnJob(s.contract)
    ensures var d := Coverage.Step(env, s, req, now).contract;
      CarriesOwnJob(d) && d.jobId == s.contract.jobId
  {
    match req
    case Approval(call) =>
      ApprovalRuns.ApproveOnlySigns(env, s, call, now);
      hide JobApproval.Approve;
    case Edit(r) =>
      SigningRuns.EditKeepsFrame(env.authority, s.contract, r, now);
      SigningRuns.EditOutcome(env.authority, s.contract, r, now);
      hide EditContract, EditDraft;
  }

  lemma GeneratedCarriesOwnJob(a: Authority, g: ContractGen.GenerateInput)
    ensures CarriesOwnJob(ContractGen.StoredGenerated(a, g))
  {
    ContractGen.GeneratedIsFresh(a, g);
    hide ContractGen.StoredGenerated;
  }

  /** Under job approval a missing governance signature keeps nothing from being final. */
  lemma GovernanceNotRequired(a: Authority, c: Contract)
    requires NeedsJobApproval(c)
    ensures ContractVerified(a, c.(governance := None)) <==> ContractVerified(a, c)
  {
    hide ProviderStatuses, AllValid;
    var d := c.(governance := None);
    assert Blank(d) == Blank(c);
    assert ContentMatches(a, d) == ContentMatches(a, c);
    SameStatuses(a, c, d);
  }

  lemma SameStatuses(a: Authority, c: Contract, d: Contract)
    requires d.dataProviders == c.dataProviders && d.infraProviders == c.infraProviders
    requires d.contractHash == c.contractHash && ContentMatches(a, d) == ContentMatches(a, c)
    ensures ContractStatuses(a, d) == ContractStatuses(a, c)
  {
    hide ContentMatches;
  }

  // ---- the stored rows, statement by statement

  /** One contracts row; job_id, finalized_at and tee_enabled_at are its own columns. */
  datatype Row = Row(jobId: string, contract: Contract, finalizedAt: Option<Time>, teeEnabledAt: Option<Time>)

  datatype FinalContract = FinalContract(contractId: string, contractHash: Hash, contract: Contract)

  /** Where one GET /job/{id}/status call stands between its statements. */
  datatype StatusCall =
    | Idle
    | Verified(jobId: string, contract: Contract)
    | Sealed(jobId: string, contract: Contract)
    | Checked(jobId: string, contract: Contract)
    | Created(jobId: string)

  datatype Store = Store(
    authority: Authority,
    rows: map<string, Row>,            // by session key
    finals: map<string, FinalContract>, // by job id
    calls: map<nat, StatusCall>)

  datatype Statement =
    | LoadAndVerify(call: nat, session: string, owners: map<string, string>)
    | SealHash(call: nat)
    | VerifySignatures(call: nat)
    | InsertFinal(call: nat)
    | MarkFinal(call: nat, now: Time)
    | EnableTee(jobId: string, now: Time)
    | Regenerate(session: string, jobId: string, contract: Contract)
    | StoreContract(contractId: string, contract: Contract)
    | RegisterKey(username: string, key: Key)

  function CallAt(s: Store, call: nat): StatusCall {
    if call in s.calls then s.calls[call] else Idle
  }

  function WithCall(s: Store, call: nat, st: StatusCall): Store {
    s.(calls := s.calls[call := st])
  }

  /** UpdateContractByContractID. */
  function UpdateContract(rows: map<string, Row>, contractId: string, c: Contract): map<string, Row> {
    map k <- rows :: if rows[k].contract.contractId == contractId then rows[k].(contract := c) else rows[k]
  }

  /** MarkJobFinal: only a row not final yet is stamped. */
  function MarkRowsFinal(rows: map<string, Row>, jobId: string, now: Time): map<string, Row> {
    map k <- rows :: if rows[k].jobId == jobId && rows[k].finalizedAt.None?
                     then rows[k].(finalizedAt := Some(now)) else rows[k]
  }

  /** EnableJobTEE: only a final row is stamped, and the first stamp is kept. */
  function EnableRowsTee(rows: map<string, Row>, jobId: string, now: Time): map<string, Row> {
    map k <- rows :: if rows[k].jobId == jobId && rows[k].finalizedAt.Some?
                     then rows[k].(teeEnabledAt := Some(rows[k].teeEnabledAt.GetOr(now))) else rows[k]
  }

  /** CreateFinalContract: ON CONFLICT (job_id) DO NOTHING. */
  function CreateFinal(finals: map<string, FinalContract>, jobId: string, c: Contract): map<string, FinalContract> {
    if jobId in finals then finals else finals[jobId := FinalContract(c.contractId, c.contractHash, c)]
  }

  /** One statement; a statement that does not apply leaves the store as it is. */
  function Exec(s: Store, st: Statement): Store {
    match st
    case LoadAndVerify(call, session, owners) =>
      if CallAt(s, call) != Idle || session !in s.rows then s
      else
        var row := s.rows[session];
        if NeedsJobApproval(row.contract) && JobVerified(s.authority, row.contract, owners)
        then WithCall(s, call, Verified(row.jobId, Stamped(row.contract, row.jobId))) else s
    case SealHash(call) =>
      (match CallAt(s, call)
       case Verified(jobId, c) =>
         if c.contractHash != NoHash then WithCall(s, call, Sealed(jobId, c))
         else if exists k <- s.rows :: s.rows[k].contract.contractId == c.contractId
         then WithCall(s.(rows := UpdateContract(s.rows, c.contractId, Seal(c))), call, Sealed(jobId, Seal(c)))
         else WithCall(s, call, Idle)
       case _ => s)
    case VerifySignatures(call) =>
      (match CallAt(s, call)
       case Sealed(jobId, c) => WithCall(s, call, if ContractVerified(s.authority, c) then Checked(jobId, c) else Idle)
       case _ => s)
    case InsertFinal(call) =>
      (match CallAt(s, call)
       case Checked(jobId, c) => WithCall(s.(finals := CreateFinal(s.finals, jobId, c)), call, Created(jobId))
       case _ => s)
    case MarkFinal(call, now) =>
      (match CallAt(s, call)
       case Created(jobId) => WithCall(s.(rows := MarkRowsFinal(s.rows, jobId, now)), call, Idle)
       case _ => s)
    case EnableTee(jobId, now) => s.(rows := EnableRowsTee(s.rows, jobId, now))
    case Regenerate(session, jobId, c) => s.(rows := s.rows[session := Row(jobId, c, None, None)])
    case StoreContract(contractId, c) => s.(rows := UpdateContract(s.rows, contractId, c))
    case RegisterKey(username, key) =>
      s.(authority := s.authority.(keys := s.authority.keys[Lower(username) := key]))
  }

  function ExecAll(s: Store, sts: seq<Statement>): Store {
    if sts == [] then s else Exec(ExecAll(s, sts[..|sts| - 1]), sts[|sts| - 1])
  }

  // ---- the invariant of the stored rows

  ghost predicate StoreInv(s: Store) {
    && (forall k <- s.rows :: s.rows[k].finalizedAt.Some? ==> s.rows[k].jobId in s.finals)
    && (forall k <- s.rows :: s.rows[k].teeEnabledAt.Some? ==> s.rows[k].finalizedAt.Some?)
    && (forall k <- s.calls :: s.calls[k].Created? ==> s.calls[k].jobId in s.finals)
    && (forall j <- s.finals :: Recorded(s.finals[j]))
  }

  /** The columns of a final contract are its JSON's. */
  predicate Recorded(f: FinalContract) {
    f.contractHash == f.contract.contractHash && f.contractId == f.contract.contractId
  }

  /** Statement m of the run found every signature on c verified, for a call about jobId. */
  ghost predicate FoundAt(s: Store, sts: seq<Statement>, jobId: string, c: Contract, m: nat) {
    m < |sts| && sts[m].VerifySignatures? &&
    (var t := ExecAll(s, sts[..m]);
     && CallAt(t, sts[m].call) == Sealed(jobId, c)
     && EverySignatureVerifies(t.authority, c) && |c.dataProviders| > 0)
  }

  ghost predicate Found(s: Store, sts: seq<Statement>, jobId: string, c: Contract) {
    exists m: nat | m < |sts| :: FoundAt(s, sts, jobId, c, m)
  }

  lemma MarkFinalKeepsInv(s: Store, call: nat, now: Time)
    requires StoreInv(s)
    ensures StoreInv(Exec(s, MarkFinal(call, now)))
  {
    hide Recorded;
  }

  lemma CreateKeepsInv(s: Store, call: nat)
    requires StoreInv(s)
    ensures StoreInv(Exec(s, InsertFinal(call)))
  {
  }

  lemma SealKeepsInv(s: Store, call: nat)
    requires StoreInv(s)
    ensures StoreInv(Exec(s, SealHash(call)))
  {
    hide Recorded, Seal;
  }

  lemma RowsKeepInv(s: Store, st: Statement)
    requires StoreInv(s) && (st.EnableTee? || st.Regenerate? || st.StoreContract?)
    ensures StoreInv(Exec(s, st))
  {
    hide Recorded;
  }

  lemma ExecKeepsInv(s: Store, st: Statement)
    requires StoreInv(s)
    ensures StoreInv(Exec(s, st))
    ensures forall j <- s.finals :: j in Exec(s, st).finals && Exec(s, st).finals[j] == s.finals[j]
  {
    hide ContractVerified, JobVerified, Recorded, NeedsJobApproval, Seal, Stamped;
    match st
    case MarkFinal(call, now) => MarkFinalKeepsInv(s, call, now);
    case InsertFinal(call) => CreateKeepsInv(s, call);
    case SealHash(call) => SealKeepsInv(s, call);
    case EnableTee(_, _) => RowsKeepInv(s, st);
    case Regenerate(_, _, _) => RowsKeepInv(s, st);
    case StoreContract(_, _) => RowsKeepInv(s, st);
    case _ =>
  }

  /** The store before any job was generated. */
  predicate Empty(s: Store) {
    s.rows == map[] && s.finals == map[] && s.calls == map[]
  }

  lemma FoundStays(s: Store, sts: seq<Statement>, st: Statement, jobId: string, c: Contract)
    requires Found(s, sts, jobId, c)
    ensures Found(s, sts + [st], jobId, c)
  {
    hide ExecAll, EverySignatureVerifies;
    var m: nat :| m < |sts| && FoundAt(s, sts, jobId, c, m);
    assert (sts + [st])[..m] == sts[..m];
    assert FoundAt(s, sts + [st], jobId, c, m);
  }

  /** A call that reaches Checked has just had every signature verified. */
  lemma CheckedIsFound(s: Store, sts: seq<Statement>, st: Statement, call: nat)
    requires var t := ExecAll(s, sts);
      CallAt(Exec(t, st), call).Checked? && CallAt(Exec(t, st), call) != CallAt(t, call)
    ensures var k := CallAt(Exec(ExecAll(s, sts), st), call);
      Found(s, sts + [st], k.jobId, k.contract)
  {
    hide ExecAll, ContractVerified, EverySignatureVerifies, JobVerified, NeedsJobApproval, Seal, Stamped;
    var t := ExecAll(s, sts);
    assert st == VerifySignatures(call);
    VerifiedMeans(t.authority, CallAt(t, call).contract);
    assert (sts + [st])[..|sts|] == sts;
    assert FoundAt(s, sts + [st], CallAt(t, call).jobId, CallAt(t, call).contract, |sts|);
  }

  /** A new final contract is the one a call had checked. */
  lemma NewFinalWasChecked(s: Store, st: Statement, jobId: string)
    requires jobId !in s.finals && jobId in Exec(s, st).finals
    ensures st.InsertFinal? && CallAt(s, st.call) == Checked(jobId, Exec(s, st).finals[jobId].contract)
  {
    hide ContractVerified, JobVerified, NeedsJobApproval, Seal, Stamped;
  }

  /** Every call past the check, and every final contract, had every signature verified. */
  ghost predicate Traced(s: Store, sts: seq<Statement>) {
    var t := ExecAll(s, sts);
    && (forall call: nat :: CallAt(t, call).Checked? ==> Found(s, sts, CallAt(t, call).jobId, CallAt(t, call).contract))
    && (forall j <- t.finals :: Found(s, sts, j, t.finals[j].contract))
  }

  lemma StepTraced(s: Store, sts: seq<Statement>, st: Statement)
    requires Traced(s, sts) && StoreInv(ExecAll(s, sts))
    ensures Traced(s, sts + [st])
  {
    hide Exec, Found, CallAt, StoreInv;
    var mid, t := ExecAll(s, sts), ExecAll(s, sts + [st]);
    assert (sts + [st])[..|sts|] == sts;
    ExecKeepsInv(mid, st);
    forall call: nat | CallAt(t, call).Checked?
      ensures Found(s, sts + [st], CallAt(t, call).jobId, CallAt(t, call).contract)
    {
      if CallAt(t, call) == CallAt(mid, call) {
        FoundStays(s, sts, st, CallAt(t, call).jobId, CallAt(t, call).contract);
      } else {
        CheckedIsFound(s, sts, st, call);
      }
    }
    forall j | j in t.finals ensures Found(s, sts + [st], j, t.finals[j].contract) {
      if j !in mid.finals {
        NewFinalWasChecked(mid, st, j);
        FoundStays(s, sts, st, j, t.finals[j].contract);
      } else {
        FoundStays(s, sts, st, j, mid.finals[j].contract);
      }
    }
  }

  /**
   * Main result: after any interleaving of statements, finalized_at implies a final contract
   * for that job, tee_enabled_at implies finalized_at, and every signature on every final contract
   * was found verified by an earlier statement, under the keys registered then.
   */
  lemma {:induction false} LifecycleHolds(s: Store, sts: seq<Statement>)
    requires Empty(s)
    ensures StoreInv(ExecAll(s, sts))
    ensures Traced(s, sts)
  {
    if sts != [] {
      hide Exec, StoreInv, Traced;
      var init, st := sts[..|sts| - 1], sts[|sts| - 1];
      LifecycleHolds(s, init);
      ExecKeepsInv(ExecAll(s, init), st);
      assert sts == init + [st];
      StepTraced(s, init, st);
    } else {
      EmptyHolds(s);
    }
  }

  lemma EmptyHolds(s: Store)
    requires Empty(s)
    ensures StoreInv(s)
  {
  }

  /** A final contract, once written, is what every later statement still finds, regenerations included. */
  lemma {:induction false} FinalNeverReplaced(s: Store, before: seq<Statement>, after: seq<Statement>, jobId: string)
    requires Empty(s) && jobId in ExecAll(s, before).finals
    ensures jobId in ExecAll(s, before + after).finals
    ensures ExecAll(s, before + after).finals[jobId] == ExecAll(s, before).finals[jobId]
  {
    if after == [] {
      assert before + after == before;
    } else {
      hide Exec, StoreInv, Traced;
      var n := |after| - 1;
      assert (before + after)[..|before + after| - 1] == before + after[..n];
      FinalNeverReplaced(s, before, after[..n], jobId);
      LifecycleHolds(s, before + after[..n]);
      ExecKeepsInv(ExecAll(s, before + after[..n]), after[n]);
    }
  }

  /** Rows keep their job and their stamps: a stamp once set never moves. */
  ghost predicate StampsKept(earlier: Row, later: Row) {
    && later.jobId == earlier.jobId
    && (earlier.finalizedAt.Some? ==> later.finalizedAt == earlier.finalizedAt)
    && (earlier.teeEnabledAt.Some? ==> later.teeEnabledAt == earlier.teeEnabledAt)
  }

  lemma ExecKeepsStamps(s: Store, st: Statement, k: string)
    requires k in s.rows && !(st.Regenerate? && st.session == k)
    ensures k in Exec(s, st).rows && StampsKept(s.rows[k], Exec(s, st).rows[k])
  {
    hide ContractVerified, JobVerified, NeedsJobApproval, Seal, Stamped;
  }

  /** Whatever runs, a row's stamps stand until its own selection is generated again. */
  lemma {:induction false} StampsStand(s: Store, sts: seq<Statement>, k: string)
    requires k in s.rows && forall i :: 0 <= i < |sts| && sts[i].Regenerate? ==> sts[i].session != k
    ensures k in ExecAll(s, sts).rows && StampsKept(s.rows[k], ExecAll(s, sts).rows[k])
  {
    if sts != [] {
      hide Exec;
      var n := |sts| - 1;
      StampsStand(s, sts[..n], k);
      ExecKeepsStamps(ExecAll(s, sts[..n]), sts[n], k);
    }
  }

  /** Marking a job final stamps every row of it that has no stamp, now, and touches nothing else. */
  lemma MarkedRows(rows: map<string, Row>, jobId: string, now: Time)
    ensures var marked := MarkRowsFinal(rows, jobId, now);
      && marked.Keys == rows.Keys
      && (forall k <- rows :: rows[k].jobId == jobId ==>
            marked[k] == rows[k].(finalizedAt := Some(rows[k].finalizedAt.GetOr(now))))
      && (forall k <- rows :: rows[k].jobId != jobId ==> marked[k] == rows[k])
      && (forall k <- rows :: StampsKept(rows[k], marked[k]))
      && MarkRowsFinal(marked, jobId, now + 1) == marked
  {
  }

  /** Storing a contract replaces it in exactly the rows of its id, stamps and job kept. */
  lemma StoredRows(rows: map<string, Row>, contractId: string, c: Contract)
    ensures var stored := UpdateContract(rows, contractId, c);
      && stored.Keys == rows.Keys
      && (forall k <- rows :: rows[k].contract.contractId == contractId ==> stored[k] == rows[k].(contract := c))
      && (forall k <- rows :: rows[k].contract.contractId != contractId ==> stored[k] == rows[k])
      && (forall k <- rows :: StampsKept(rows[k], stored[k]))
  {
  }

  /** Enabling a job stamps exactly its final rows that were not enabled before, now, and nothing else. */
  lemma EnabledRows(rows: map<string, Row>, jobId: string, now: Time)
    ensures var enabled := EnableRowsTee(rows, jobId, now);
      && enabled.Keys == rows.Keys
      && (forall k <- rows :: enabled[k] != rows[k] <==>
            rows[k].jobId == jobId && rows[k].finalizedAt.Some? && rows[k].teeEnabledAt.None?)
      && (forall k <- rows :: enabled[k] != rows[k] ==> enabled[k] == rows[k].(teeEnabledAt := Some(now)))
      && EnableRowsTee(enabled, jobId, now + 1) == enabled
  {
  }

  /**
   * Generating a selection again starts its row over under the new job, while the old job's final
   * contract stands whatever runs afterwards.
   */
  lemma {:induction false} RegenerationStartsOver(s: Store, before: seq<Statement>, after: seq<Statement>,
                                                  session: string, jobId: string, c: Contract, past: string)
    requires Empty(s) && past in ExecAll(s, before).finals
    ensures var t := Exec(ExecAll(s, before), Regenerate(session, jobId, c));
      && t.rows[session].jobId == jobId && t.rows[session].finalizedAt.None? && t.rows[session].teeEnabledAt.None?
      && (forall k <- ExecAll(s, before).rows :: k != session ==> t.rows[k] == ExecAll(s, before).rows[k])
    ensures var u := ExecAll(s, before + [Regenerate(session, jobId, c)] + after);
      past in u.finals && u.finals[past] == ExecAll(s, before).finals[past]
  {
    var again := [Regenerate(session, jobId, c)];
    assert before + again + after == before + (again + after);
    FinalNeverReplaced(s, before, again + after, past);
  }

  lemma SealWithHash(c: Contract)
    ensures c.contractHash != NoHash ==> Seal(c) == c
    ensures Seal(c).contractHash != NoHash && Seal(c).contractId == c.contractId
  {
  }

  // ---- a whole status call

  /** The statements of one GET /job/{id}/status, in its order. */
  function StatusStatements(call: nat, session: string, owners: map<string, string>, now: Time): seq<Statement> {
    [LoadAndVerify(call, session, owners), SealHash(call), VerifySignatures(call), InsertFinal(call),
     MarkFinal(call, now)]
  }

  /** The rows and final contracts a status call leaves when it passes verification, run alone. */
  function Finalized(s: Store, session: string, now: Time): (map<string, Row>, map<string, FinalContract>)
    requires session in s.rows
  {
    var row := s.rows[session];
    var c := Stamped(row.contract, row.jobId);
    var rows := if c.contractHash == NoHash then UpdateContract(s.rows, c.contractId, Seal(c)) else s.rows;
    if ContractVerified(s.authority, Seal(c))
    then (MarkRowsFinal(rows, row.jobId, now), CreateFinal(s.finals, row.jobId, Seal(c)))
    else (rows, s.finals)
  }

  lemma ExecFive(s: Store, sts: seq<Statement>)
    requires |sts| == 5
    ensures ExecAll(s, sts) == Exec(Exec(Exec(Exec(Exec(s, sts[0]), sts[1]), sts[2]), sts[3]), sts[4])
  {
    hide Exec;
    assert sts[..4][..3] == sts[..3] && sts[..3][..2] == sts[..2] && sts[..2][..1] == sts[..1] && sts[..1][..0] == [];
    assert ExecAll(s, sts[..1]) == Exec(s, sts[0]);
    assert ExecAll(s, sts[..2]) == Exec(ExecAll(s, sts[..1]), sts[1]);
    assert ExecAll(s, sts[..3]) == Exec(ExecAll(s, sts[..2]), sts[2]);
    assert ExecAll(s, sts[..4]) == Exec(ExecAll(s, sts[..3]), sts[3]);
  }

  /** A call that is idle, its contract not verified or not final, does nothing more. */
  lemma IdleSkips(s: Store, call: nat, now: Time)
    requires CallAt(s, call) == Idle
    ensures Exec(s, SealHash(call)) == Exec(s, VerifySignatures(call)) == s
    ensures Exec(s, InsertFinal(call)) == Exec(s, MarkFinal(call, now)) == s
  {
  }

  lemma SealAlone(s: Store, call: nat, jobId: string, c: Contract)
    requires CallAt(s, call) == Verified(jobId, c)
    requires exists k <- s.rows :: s.rows[k].contract.contractId == c.contractId
    ensures var rows := if c.contractHash == NoHash then UpdateContract(s.rows, c.contractId, Seal(c)) else s.rows;
      Exec(s, SealHash(call)) == WithCall(s.(rows := rows), call, Sealed(jobId, Seal(c)))
  {
    hide Seal;
    SealWithHash(c);
  }

  lemma RestAlone(s: Store, call: nat, jobId: string, c: Contract, now: Time)
    requires CallAt(s, call) == Sealed(jobId, c)
    ensures var t := Exec(Exec(Exec(s, VerifySignatures(call)), InsertFinal(call)), MarkFinal(call, now));
      (t.rows, t.finals) == if ContractVerified(s.authority, c)
                            then (MarkRowsFinal(s.rows, jobId, now), CreateFinal(s.finals, jobId, c))
                            else (s.rows, s.finals)
  {
    hide ContractVerified, MarkRowsFinal, CreateFinal;
    if !ContractVerified(s.authority, c) {
      IdleSkips(Exec(s, VerifySignatures(call)), call, now);
    }
  }

  lemma LoadAlone(s: Store, call: nat, session: string, owners: map<string, string>)
    requires CallAt(s, call) == Idle && session in s.rows
    ensures var row := s.rows[session];
      Exec(s, LoadAndVerify(call, session, owners)) ==
        if NeedsJobApproval(row.contract) && JobVerified(s.authority, row.contract, owners)
        then WithCall(s, call, Verified(row.jobId, Stamped(row.contract, row.jobId))) else s
  {
    hide JobVerified, NeedsJobApproval, Stamped;
  }

  /** Its statements run one after the other, and nothing else between them, are the handler in one step. */
  lemma {:induction false} StatusCallAlone(s: Store, call: nat, session: string, owners: map<string, string>, now: Time)
    requires CallAt(s, call) == Idle && session in s.rows
    ensures var t := ExecAll(s, StatusStatements(call, session, owners, now));
      if NeedsJobApproval(s.rows[session].contract) && JobVerified(s.authority, s.rows[session].contract, owners)
      then (t.rows, t.finals) == Finalized(s, session, now)
      else t == s
  {
    hide ContractVerified, JobVerified, NeedsJobApproval, Seal, ExecAll, Exec, MarkRowsFinal, CreateFinal;
    hide UpdateContract;
    var sts, row := StatusStatements(call, session, owners, now), s.rows[session];
    var c := Stamped(row.contract, row.jobId);
    ExecFive(s, sts);
    LoadAlone(s, call, session, owners);
    if NeedsJobApproval(row.contract) && JobVerified(s.authority, row.contract, owners) {
      var s1 := Exec(s, sts[0]);
      assert s1.rows[session].contract.contractId == c.contractId;
      SealAlone(s1, call, row.jobId, c);
      RestAlone(Exec(s1, sts[1]), call, row.jobId, Seal(c), now);
    } else {
      IdleSkips(s, call, now);
    }
  }

  /** A status call that passes verification and is left to finish makes its own job final. */
  lemma UndisturbedCallFinalizes(s: Store, call: nat, session: string, owners: map<string, string>, now: Time)
    requires CallAt(s, call) == Idle && session in s.rows
    requires NeedsJobApproval(s.rows[session].contract) && s.rows[session].contract.jobId == s.rows[session].jobId
    requires JobVerified(s.authority, s.rows[session].contract, owners)
    ensures var t := ExecAll(s, StatusStatements(call, session, owners, now));
      && s.rows[session].jobId in t.finals
      && session in t.rows && t.rows[session].jobId == s.rows[session].jobId && t.rows[session].finalizedAt.Some?
  {
    hide ContractVerified, JobVerified, NeedsJobApproval, Seal, ExecAll, StatusStatements;
    var row := s.rows[session];
    VerifiedJobIsFinal(s.authority, row.contract, owners);
    assert Stamped(row.contract, row.contract.jobId) == Stamped(row.contract, row.jobId);
    StatusCallAlone(s, call, session, owners, now);
  }
}
