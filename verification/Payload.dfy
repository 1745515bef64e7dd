/** What a TEE run is sent stays what the contract's parties record. */
module Payload {
  import opened Text
  import opened Contracts
  import opened Signing
  import opened SigningRuns
  import opened ContractGen

  /** The derived fields of c agree with the parties they were derived from. */
  predicate InStep(c: Contract) {
    && (c.workload.Some? && DATASET_URL in c.workload.value.env ==>
          c.dataProviders != [] && c.workload.value.env[DATASET_URL] == c.dataProviders[0].dataUrl)
    && (c.trustee.Some? ==> c.dataProviders != [] && c.trustee == c.dataProviders[0].trustee)
    && (c.workload.Some? ==>
          c.applicationProviders != [] && c.applicationProviders[0].containerImage == c.workload.value.image)
  }

  lemma GeneratedInStep(a: Authority, g: GenerateInput)
    ensures InStep(StoredGenerated(a, g))
  {
  }

  /** Between the party edits and the final resync, only the dataset-derived fields may lag. */
  predicate NearlyInStep(c: Contract) {
    && (c.workload.Some? && DATASET_URL in c.workload.value.env ==> c.dataProviders != [])
    && (c.trustee.Some? ==>
          && c.dataProviders != [] && c.dataProviders[0].trustee.Some?
          && c.dataProviders[0].trustee.value.kbsUrl == c.trustee.value.kbsUrl)
    && (c.workload.Some? ==>
          c.applicationProviders != [] && c.applicationProviders[0].containerImage == c.workload.value.image)
  }

  lemma PartyEditsNearlyInStep(d: Draft, r: EditRequest)
    requires d.Draft? && |r.dataProviders| <= |d.contract.dataProviders| && InStep(d.contract)
    ensures NearlyInStep(EditParties(d, r).contract)
  {
  }

  lemma WorkloadEditNearlyInStep(c: Contract, r: EditRequest)
    requires NearlyInStep(c) && WorkloadDraft(c, r).Draft?
    ensures NearlyInStep(WorkloadDraft(c, r).contract)
  {
  }

  lemma SyncRestoresStep(c: Contract)
    requires NearlyInStep(c)
    ensures InStep(SyncDerived(c))
  {
  }

  lemma EditKeepsStep(a: Authority, c: Contract, r: EditRequest, now: Time)
    requires InStep(c)
    ensures InStep(EditContract(a, c, r, now).contract)
  {
    hide EditContract;
    EditOutcome(a, c, r, now);
    if EditContract(a, c, r, now).reply == Accepted {
      var d0 := LifecycleDraft(c, r);
      var d1 := EditParties(d0, r);
      var d2 := WorkloadDraft(d1.contract, r);
      PartyEditsNearlyInStep(d0, r);
      WorkloadEditNearlyInStep(d1.contract, r);
      SyncRestoresStep(d2.contract);
    }
  }

  /** Every other request leaves the derived fields and the first dataset's URL and trustee alone. */
  lemma ApplyKeepsStep(s: State, req: Request, now: Time)
    requires InStep(s.contract)
    ensures InStep(Apply(s, req, now).contract)
  {
    hide EditContract, SetConsentExpiry, ProviderIdForUsername, PartyProviderId;
    match req
    case Edit(r) => EditKeepsStep(s.authority, s.contract, r, now);
    case SetExpiry(username, until) => AcceptedExpiry(s.authority, s.contract, username, until, now);
    case _ =>
      OthersOnlySign(s, req, now);
      hide Apply;
  }

  /** Main result: after any run, what the run is sent is what the parties record. */
  lemma {:induction false} PayloadStaysInStep(a: Authority, g: GenerateInput, reqs: seq<Timed>)
    ensures var c := Run(State(a, StoredGenerated(a, g), []), reqs).contract;
      InStep(c)
  {
    if reqs == [] {
      GeneratedInStep(a, g);
    } else {
      var n := |reqs| - 1;
      PayloadStaysInStep(a, g, reqs[..n]);
      ApplyKeepsStep(Run(State(a, StoredGenerated(a, g), []), reqs[..n]), reqs[n].0, reqs[n].1);
    }
  }

  /** A sub-contract with nothing missing carries the first dataset's URL and trustee and the application's image. */
  lemma {:induction false} SubContractMatchesParties(a: Authority, g: GenerateInput, reqs: seq<Timed>)
    ensures var c := Run(State(a, StoredGenerated(a, g), []), reqs).contract;
      var (sub, missing) := NewSubContract(c);
      missing == [] ==>
        && c.dataProviders != [] && c.applicationProviders != []
        && sub.contractId == c.contractId != ""
        && sub.workload.Some? && sub.workload.value.image == c.applicationProviders[0].containerImage != ""
        && DATASET_URL in sub.workload.value.env
        && sub.workload.value.env[DATASET_URL] == c.dataProviders[0].dataUrl != ""
        && sub.trustee == c.dataProviders[0].trustee
        && sub.trustee.Some? && sub.trustee.value.kbsUrl != "" && sub.trustee.value.keyResourcePath != ""
  {
    PayloadStaysInStep(a, g, reqs);
  }
}
