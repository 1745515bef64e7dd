/**
 * Whose signature a dataset or an infra carries after any run of approval calls and consumer edits,
 * and so when a job's signatures verify, read off the calls alone.
 */
module ApprovalHistory {
  import opened Text
  import opened Contracts
  import Signing
  import SigningRuns
  import opened Verification
  import opened JobApproval
  import opened Coverage
  import opened ApprovalSteps
  import Finalization
  import ContractGen

  function Parties(c: Contract, kind: Kind): nat {
    if kind == Data then |c.dataProviders| else |c.infraProviders|
  }

  function SignatureOf(c: Contract, kind: Kind, i: nat): Signature
    requires i < Parties(c, kind)
  {
    if kind == Data then c.dataProviders[i].signature else c.infraProviders[i].signature
  }

  /** Made on s, the request is a recorded call that approves party i of the kind. */
  ghost predicate Signs(env: JobEnv, s: JobState, req: Request, kind: Kind, i: nat) {
    && req.Approval? && KindOf(req.call) == kind && Recordable(env, s, req.call) && i < Parties(s.contract, kind)
    && (if kind == Data then Approves(env, s.contract, req.call.caller, s.contract.dataProviders[i])
        else AcceptedInfra(env, req.call.caller, s.contract.infraProviders[i].id))
  }

  /** One request: the parties it signs carry its block, the others what they carried. */
  lemma StepSigns(env: JobEnv, s: JobState, req: Request, now: Time, kind: Kind, i: nat)
    requires i < Parties(s.contract, kind)
    ensures var d := Step(env, s, req, now).contract;
      && Parties(d, kind) == Parties(s.contract, kind)
      && SignatureOf(d, kind, i) ==
           if Signs(env, s, req, kind, i) then Block(req.call, now) else SignatureOf(s.contract, kind, i)
  {
    hide Approve, Signing.EditContract, Recordable, Approves, AcceptedInfra;
    match req
    case Approval(call) => CallSigns(env, s, call, now, kind, i);
    case Edit(r) =>
      SigningRuns.EditKeepsFrame(env.authority, s.contract, r, now);
      if kind == Data {
        assert SigningRuns.SameSigner(s.contract.dataProviders[i], Step(env, s, req, now).contract.dataProviders[i]);
      }
  }

  lemma CallSigns(env: JobEnv, s: JobState, call: Call, now: Time, kind: Kind, i: nat)
    requires i < Parties(s.contract, kind)
    ensures var d := Approve(env, s, call, now).0.contract;
      && Parties(d, kind) == Parties(s.contract, kind)
      && SignatureOf(d, kind, i) ==
           if Signs(env, s, Approval(call), kind, i) then Block(call, now) else SignatureOf(s.contract, kind, i)
  {
    hide Approve, Recordable, Approves, AcceptedInfra, Block;
    RecordedExactly(env, s, call, now);
    CallSignsExactly(env, s, call, now);
  }

  // ---- over a run

  ghost predicate SignedAt(env: JobEnv, c: Contract, reqs: seq<TimedRequest>, kind: Kind, i: nat, k: nat) {
    k < |reqs| && Signs(env, JobRun(env, JobState(c, []), reqs[..k]), reqs[k].0, kind, i)
  }

  /** Request k is the last of the run to sign party i. */
  ghost predicate LastSignedAt(env: JobEnv, c: Contract, reqs: seq<TimedRequest>, kind: Kind, i: nat, k: nat) {
    && SignedAt(env, c, reqs, kind, i, k)
    && forall m: nat :: k < m < |reqs| ==> !SignedAt(env, c, reqs, kind, i, m)
  }

  ghost predicate NeverSigned(env: JobEnv, c: Contract, reqs: seq<TimedRequest>, kind: Kind, i: nat) {
    forall k: nat :: k < |reqs| ==> !SignedAt(env, c, reqs, kind, i, k)
  }

  lemma SignedInPrefix(env: JobEnv, c: Contract, reqs: seq<TimedRequest>, x: TimedRequest, kind: Kind, i: nat)
    ensures forall k: nat :: k < |reqs| ==>
      (SignedAt(env, c, reqs + [x], kind, i, k) <==> SignedAt(env, c, reqs, kind, i, k))
    ensures SignedAt(env, c, reqs + [x], kind, i, |reqs|) <==>
      Signs(env, JobRun(env, JobState(c, []), reqs), x.0, kind, i)
  {
    hide Signs, JobRun;
    var all := reqs + [x];
    assert all[..|reqs|] == reqs;
    forall k: nat | k < |reqs| ensures SignedAt(env, c, all, kind, i, k) <==> SignedAt(env, c, reqs, kind, i, k) {
      assert all[..k] == reqs[..k];
    }
  }

  lemma RunGrows(env: JobEnv, s: JobState, reqs: seq<TimedRequest>, x: TimedRequest)
    ensures JobRun(env, s, reqs + [x]) == Step(env, JobRun(env, s, reqs), x.0, x.1)
  {
    hide Step;
    assert (reqs + [x])[..|reqs|] == reqs;
  }

  /** What party i carries after the run, said of its last signer. */
  ghost predicate CarriesLast(env: JobEnv, c: Contract, reqs: seq<TimedRequest>, kind: Kind, i: nat, sig: Signature)
    requires i < Parties(c, kind)
  {
    if NeverSigned(env, c, reqs, kind, i) then sig == SignatureOf(c, kind, i)
    else exists k: nat | k < |reqs| ::
      && LastSignedAt(env, c, reqs, kind, i, k)
      && reqs[k].0.Approval? && sig == Block(reqs[k].0.call, reqs[k].1)
  }

  lemma CarriesGrows(env: JobEnv, c: Contract, reqs: seq<TimedRequest>, x: TimedRequest, kind: Kind, i: nat,
                     sig: Signature)
    requires i < Parties(c, kind) && CarriesLast(env, c, reqs, kind, i, sig)
    ensures CarriesLast(env, c, reqs + [x], kind, i,
      if Signs(env, JobRun(env, JobState(c, []), reqs), x.0, kind, i) then Block(x.0.call, x.1) else sig)
  {
    hide JobRun, SignedAt, Block, Recordable, Approves, AcceptedInfra;
    var all, n := reqs + [x], |reqs|;
    SignedInPrefix(env, c, reqs, x, kind, i);
    if SignedAt(env, c, all, kind, i, n) {
      assert LastSignedAt(env, c, all, kind, i, n) && all[n] == x;
    } else if !NeverSigned(env, c, reqs, kind, i) {
      var k: nat :| k < n && LastSignedAt(env, c, reqs, kind, i, k)
        && reqs[k].0.Approval? && sig == Block(reqs[k].0.call, reqs[k].1);
      assert LastSignedAt(env, c, all, kind, i, k) && all[k] == reqs[k];
    }
  }

  /**
   * Main result: after any run, a party carries the block of the last request that signed it, and
   * what it carried at the start when none did.
   */
  lemma {:induction false} SignatureIsLastApproval(env: JobEnv, c: Contract, reqs: seq<TimedRequest>, kind: Kind,
                                                   i: nat)
    requires i < Parties(c, kind)
    ensures var d := JobRun(env, JobState(c, []), reqs).contract;
      && Parties(d, kind) == Parties(c, kind)
      && CarriesLast(env, c, reqs, kind, i, SignatureOf(d, kind, i))
  {
    hide Step, Signs, CarriesLast, JobRun, Parties, SignatureOf, Block;
    if reqs == [] {
      CarriesFromStart(env, c, kind, i);
    } else {
      var n := |reqs| - 1;
      var s := JobRun(env, JobState(c, []), reqs[..n]);
      SignatureIsLastApproval(env, c, reqs[..n], kind, i);
      StepSigns(env, s, reqs[n].0, reqs[n].1, kind, i);
      CarriesGrows(env, c, reqs[..n], reqs[n], kind, i, SignatureOf(s.contract, kind, i));
      RunGrows(env, JobState(c, []), reqs[..n], reqs[n]);
      assert reqs[..n] + [reqs[n]] == reqs;
    }
  }

  lemma CarriesFromStart(env: JobEnv, c: Contract, kind: Kind, i: nat)
    requires i < Parties(c, kind)
    ensures JobRun(env, JobState(c, []), []) == JobState(c, [])
    ensures CarriesLast(env, c, [], kind, i, SignatureOf(c, kind, i))
  {
    hide Step;
    assert NeverSigned(env, c, [], kind, i);
  }

  // ---- when a job verifies

  /** The call submitted provider's own signature over h (anybody's, when none is named), under a registered key. */
  predicate Submits(a: Signing.Authority, call: Call, h: Hash, provider: string) {
    && call.hash == h && SignedAs(a, Login(call.caller), h, call.value)
    && (provider != "" ==> ProviderIdForUsername(Login(call.caller)) == provider)
  }

  /** The last request of the run to sign party i submitted provider's own signature over h. */
  ghost predicate ConsentsTo(a: Signing.Authority, env: JobEnv, c: Contract, reqs: seq<TimedRequest>, kind: Kind,
                             i: nat, h: Hash, provider: string)
  {
    exists k: nat | k < |reqs| ::
      LastSignedAt(env, c, reqs, kind, i, k) && reqs[k].0.Approval? && Submits(a, reqs[k].0.call, h, provider)
  }

  lemma LastIsUnique(env: JobEnv, c: Contract, reqs: seq<TimedRequest>, kind: Kind, i: nat, k: nat, m: nat)
    requires LastSignedAt(env, c, reqs, kind, i, k) && LastSignedAt(env, c, reqs, kind, i, m)
    ensures k == m
  {
    hide Signs, JobRun;
    assert SignedAt(env, c, reqs, kind, i, k) && SignedAt(env, c, reqs, kind, i, m);
  }

  lemma BlockVerifies(a: Signing.Authority, call: Call, now: Time, h: Hash, provider: string)
    ensures VerifiedSignature(a, Block(call, now), h, provider) <==> Submits(a, call, h, provider)
  {
    hide ProviderIdForUsername;
  }

  /** A party nobody had signed for verifies exactly when its last signer submitted a signature that does. */
  lemma {:induction false} ConsentExactly(a: Signing.Authority, env: JobEnv, c: Contract, reqs: seq<TimedRequest>,
                                          kind: Kind, i: nat, h: Hash, provider: string)
    requires i < Parties(c, kind) && SignatureOf(c, kind, i).value == NoValue
    ensures var d := JobRun(env, JobState(c, []), reqs).contract;
      && Parties(d, kind) == Parties(c, kind)
      && (VerifiedSignature(a, SignatureOf(d, kind, i), h, provider) <==>
          ConsentsTo(a, env, c, reqs, kind, i, h, provider))
  {
    hide JobRun, Parties, SignatureOf, LastSignedAt, SignedAt, Block, Submits;
    SignatureIsLastApproval(env, c, reqs, kind, i);
    var sig := SignatureOf(JobRun(env, JobState(c, []), reqs).contract, kind, i);
    if NeverSigned(env, c, reqs, kind, i) {
      NeverIsNoConsent(a, env, c, reqs, kind, i, h, provider);
    } else {
      var k: nat :| k < |reqs| && LastSignedAt(env, c, reqs, kind, i, k)
        && reqs[k].0.Approval? && sig == Block(reqs[k].0.call, reqs[k].1);
      BlockVerifies(a, reqs[k].0.call, reqs[k].1, h, provider);
      forall m: nat | m < |reqs| && LastSignedAt(env, c, reqs, kind, i, m) ensures m == k {
        LastIsUnique(env, c, reqs, kind, i, k, m);
      }
    }
  }

  lemma NeverIsNoConsent(a: Signing.Authority, env: JobEnv, c: Contract, reqs: seq<TimedRequest>, kind: Kind, i: nat,
                         h: Hash, provider: string)
    requires NeverSigned(env, c, reqs, kind, i)
    ensures !ConsentsTo(a, env, c, reqs, kind, i, h, provider)
  {
    hide Signs, JobRun;
  }

  /** Nobody has signed for any party of c. */
  ghost predicate Unsigned(c: Contract) {
    && (forall p <- c.dataProviders :: p.signature.value == NoValue)
    && (forall ip <- c.infraProviders :: ip.signature.value == NoValue)
  }

  /** Nobody has signed for any party of a contract as it is generated. */
  lemma GeneratedUnsigned(a: Signing.Authority, g: ContractGen.GenerateInput)
    ensures Unsigned(ContractGen.StoredGenerated(a, g))
  {
    hide ContractGen.StoredGenerated;
    ContractGen.GeneratedDatasets(a, g);
    ContractGen.GeneratedOthers(a, g);
  }

  /**
   * h is the hash d's content stands for, and for each of its parties asked to sign, the last call
   * that signed it submitted the provider's own signature over h.
   */
  ghost predicate AllConsentTo(a: Signing.Authority, env: JobEnv, c: Contract, reqs: seq<TimedRequest>,
                               owners: map<string, string>, h: Hash)
  {
    var d := JobRun(env, JobState(c, []), reqs).contract;
    && (if d.contractHash == NoHash then h == HashContract(d) else h == d.contractHash && ContentStands(a, d))
    && (forall i: nat :: i < |d.dataProviders| ==>
          ConsentsTo(a, env, c, reqs, Data, i, h, PartyProviderId(d.dataProviders[i])))
    && (UnderJobApproval(d) && a.requireInfra ==>
          forall i: nat :: i < |d.infraProviders| && d.infraProviders[i].id != "" ==>
            ConsentsTo(a, env, c, reqs, Infra, i, h, Signing.OwnerOf(owners, d.infraProviders[i].id)))
  }

  /**
   * Main result: after any run of approval calls and edits from a contract nobody had signed, its
   * signatures verify if and only if, for one hash its content stands for, the last call to sign
   * each party submitted the provider's own signature over it.
   */
  lemma {:induction false} JobVerifiesExactly(a: Signing.Authority, env: JobEnv, c: Contract, reqs: seq<TimedRequest>,
                                              owners: map<string, string>)
    requires Unsigned(c)
    ensures Finalization.JobVerified(a, JobRun(env, JobState(c, []), reqs).contract, owners)
      <==> exists h :: AllConsentTo(a, env, c, reqs, owners, h)
  {
    hide JobRun, ContentStands, UnderJobApproval, ProvidersSigned, ConsentsTo, Finalization.JobVerified;
    var d := JobRun(env, JobState(c, []), reqs).contract;
    Finalization.JobVerifiedExactly(a, d, owners);
    forall h ensures ProvidersSigned(a, d, h, owners) <==>
      (&& (forall i: nat :: i < |d.dataProviders| ==>
             ConsentsTo(a, env, c, reqs, Data, i, h, PartyProviderId(d.dataProviders[i])))
       && (UnderJobApproval(d) && a.requireInfra ==>
             forall i: nat :: i < |d.infraProviders| && d.infraProviders[i].id != "" ==>
               ConsentsTo(a, env, c, reqs, Infra, i, h, Signing.OwnerOf(owners, d.infraProviders[i].id))))
    {
      DatasetsConsent(a, env, c, reqs, h);
      InfrasConsent(a, env, c, reqs, h, owners);
      ProvidersSplit(a, d, h, owners);
    }
    forall h ensures Finalization.SignedAsJob(a, d, owners, h) <==> AllConsentTo(a, env, c, reqs, owners, h) {
    }
  }

  lemma ProvidersSplit(a: Signing.Authority, d: Contract, h: Hash, owners: map<string, string>)
    ensures ProvidersSigned(a, d, h, owners) <==>
      (&& DatasetsSigned(a, d.dataProviders, h)
       && (UnderJobApproval(d) && a.requireInfra ==> InfrasSigned(a, d.infraProviders, h, owners)))
  {
    hide DatasetsSigned, InfrasSigned, UnderJobApproval;
  }

  lemma DatasetsConsent(a: Signing.Authority, env: JobEnv, c: Contract, reqs: seq<TimedRequest>, h: Hash)
    requires Unsigned(c)
    ensures var d := JobRun(env, JobState(c, []), reqs).contract;
      DatasetsSigned(a, d.dataProviders, h) <==> forall i: nat :: i < |d.dataProviders| ==>
        ConsentsTo(a, env, c, reqs, Data, i, h, PartyProviderId(d.dataProviders[i]))
  {
    hide JobRun, ConsentsTo, VerifiedSignature, PartyProviderId;
    var ps := JobRun(env, JobState(c, []), reqs).contract.dataProviders;
    SamePartyCount(env, c, reqs, Data);
    forall i: nat | i < |ps|
      ensures VerifiedSignature(a, ps[i].signature, h, PartyProviderId(ps[i])) <==>
        ConsentsTo(a, env, c, reqs, Data, i, h, PartyProviderId(ps[i]))
    {
      assert c.dataProviders[i] in c.dataProviders;
      ConsentExactly(a, env, c, reqs, Data, i, h, PartyProviderId(ps[i]));
    }
    if DatasetsSigned(a, ps, h) {
      forall i: nat | i < |ps| ensures ConsentsTo(a, env, c, reqs, Data, i, h, PartyProviderId(ps[i])) {
        assert ps[i] in ps;
      }
    }
  }

  lemma InfrasConsent(a: Signing.Authority, env: JobEnv, c: Contract, reqs: seq<TimedRequest>, h: Hash,
                      owners: map<string, string>)
    requires Unsigned(c)
    ensures var d := JobRun(env, JobState(c, []), reqs).contract;
      InfrasSigned(a, d.infraProviders, h, owners) <==>
        forall i: nat :: i < |d.infraProviders| && d.infraProviders[i].id != "" ==>
          ConsentsTo(a, env, c, reqs, Infra, i, h, Signing.OwnerOf(owners, d.infraProviders[i].id))
  {
    hide JobRun, ConsentsTo, VerifiedSignature;
    var ips := JobRun(env, JobState(c, []), reqs).contract.infraProviders;
    SamePartyCount(env, c, reqs, Infra);
    forall i: nat | i < |ips|
      ensures VerifiedSignature(a, ips[i].signature, h, Signing.OwnerOf(owners, ips[i].id)) <==>
        ConsentsTo(a, env, c, reqs, Infra, i, h, Signing.OwnerOf(owners, ips[i].id))
    {
      assert c.infraProviders[i] in c.infraProviders;
      ConsentExactly(a, env, c, reqs, Infra, i, h, Signing.OwnerOf(owners, ips[i].id));
    }
    if InfrasSigned(a, ips, h, owners) {
      forall i: nat | i < |ips| && ips[i].id != ""
        ensures ConsentsTo(a, env, c, reqs, Infra, i, h, Signing.OwnerOf(owners, ips[i].id))
      {
        assert InfraSigned(a, ips[i], h, owners);
      }
    }
  }

  lemma {:induction false} SamePartyCount(env: JobEnv, c: Contract, reqs: seq<TimedRequest>, kind: Kind)
    ensures Parties(JobRun(env, JobState(c, []), reqs).contract, kind) == Parties(c, kind)
  {
    if reqs != [] {
      hide Step;
      var n := |reqs| - 1;
      var s := JobRun(env, JobState(c, []), reqs[..n]);
      SamePartyCount(env, c, reqs[..n], kind);
      StepKeepsItems(env, s, reqs[n].0, reqs[n].1);
    }
  }
}
