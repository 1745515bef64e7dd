/**
 * Runs of the signing protocol on one stored contract: any sequence of sign,
 * withdraw, set-expiry, edit, accept-invite and key-registration requests,
 * with the history of consent events they leave.
 */
module SigningRuns {
  import opened Wrappers
  import opened Text
  import opened Contracts
  import opened Signing

  datatype Request =
    | Sign(sign: SignRequest)
    | Withdraw(username: string)
    | SetExpiry(username: string, until: Option<Time>)
    | Edit(edit: EditRequest)
    | Invite(username: string)
    | RegisterKey(username: string, key: Key)

  datatype Event =
    | Gave(provider: string, at: Time, signer: string, key: Key, hash: Hash)
    | TookBack(provider: string)
    | ExpirySet(provider: string, until: Time, cleared: set<string>)

  datatype State = State(authority: Authority, contract: Contract, log: seq<Event>)

  function Record(s: State, o: Outcome, e: Event): State {
    if o.reply == Accepted then s.(contract := o.contract, log := s.log + [e]) else s
  }

  function Apply(s: State, req: Request, now: Time): State {
    match req
    case Sign(r) =>
      Record(s, SignContract(s.authority, s.contract, r, now),
             Gave(ProviderIdForUsername(r.username), now, r.username,
                  s.authority.PublicKey(r.username).GetOr(""), r.hash))
    case Withdraw(username) =>
      Record(s, WithdrawConsent(s.contract, username, now), TookBack(ProviderIdForUsername(username)))
    case SetExpiry(username, until) =>
      Record(s, SetConsentExpiry(s.authority, s.contract, username, until, now),
             ExpirySet(ProviderIdForUsername(username), until.GetOr(ZERO_TIME), Resigners(s.contract)))
    case Edit(r) => s.(contract := EditContract(s.authority, s.contract, r, now).contract)
    case Invite(username) => s.(contract := AcceptInvite(s.contract, username, now))
    case RegisterKey(username, key) =>
      s.(authority := s.authority.(keys := s.authority.keys[Lower(username) := key]))
  }

  type Timed = (Request, Time)

  function Run(s: State, reqs: seq<Timed>): State {
    if reqs == [] then s
    else
      var n := |reqs| - 1;
      Apply(Run(s, reqs[..n]), reqs[n].0, reqs[n].1)
  }

  // ---- history

  predicate Concerns(e: Event, provider: string) {
    match e
    case Gave(p, _, _, _, _) => p == provider
    case TookBack(p) => p == provider
    case ExpirySet(_, _, cleared) => provider in cleared
  }

  /** provider's latest event among their signatures, their withdrawals and the set-expiries that cleared them. */
  function Consent(log: seq<Event>, provider: string): Option<Event> {
    if log == [] then None
    else if Concerns(log[|log| - 1], provider) then Some(log[|log| - 1])
    else Consent(log[..|log| - 1], provider)
  }

  /** The consent expiry provider set last. */
  function LastExpiry(log: seq<Event>, provider: string): Option<Time> {
    if log == [] then None
    else
      var e := log[|log| - 1];
      if e.ExpirySet? && e.provider == provider then Some(e.until) else LastExpiry(log[..|log| - 1], provider)
  }

  lemma LogGrows(log: seq<Event>, e: Event, provider: string)
    ensures Consent(log + [e], provider) == if Concerns(e, provider) then Some(e) else Consent(log, provider)
    ensures LastExpiry(log + [e], provider) ==
            if e.ExpirySet? && e.provider == provider then Some(e.until) else LastExpiry(log, provider)
  {
    assert (log + [e])[..|log|] == log;
  }

  // ---- the joint invariant

  /** A freshly generated contract: hashed, perhaps governance-signed, nothing recorded on it. */
  ghost predicate Fresh(a: Authority, c: Contract) {
    && c.contractHash == HashContract(c)
    && (c.governance.Some? ==> GovernanceSignatureValid(a, c, c.contractHash))
    && c.amendment.None?
    && c.lifecycle.requestedValidUntil.None?
    && forall i :: 0 <= i < |c.dataProviders| ==>
         && c.dataProviders[i].signature.value == NoValue
         && c.dataProviders[i].signature.withdrawnAt.None?
         && c.dataProviders[i].constraints.consentValidUntil.None?
  }

  /** p's signature block is what its provider's latest consent event left. */
  predicate SignatureAgrees(p: DataProviderParty, consent: Option<Event>, contractHash: Hash) {
    match consent
    case Some(Gave(provider, at, signer, key, hash)) =>
      && hash == contractHash
      && ProviderIdForUsername(signer) == provider
      && p.signature == Signature(Some(at), signer, ALGORITHM, hash, SignedBy(key, hash), None)
    case Some(TookBack(_)) => p.signature.value == NoValue && p.signature.withdrawnAt.Some?
    case _ => p.signature.value == NoValue && p.signature.withdrawnAt.None?
  }

  predicate PartyAgrees(s: State, p: DataProviderParty) {
    && SignatureAgrees(p, Consent(s.log, PartyProviderId(p)), s.contract.contractHash)
    && p.constraints.consentValidUntil == LastExpiry(s.log, PartyProviderId(p))
  }

  ghost predicate PartiesAgree(s: State) {
    forall i :: 0 <= i < |s.contract.dataProviders| ==> PartyAgrees(s, s.contract.dataProviders[i])
  }

  ghost predicate Inv(s: State) {
    && !NeedsJobApproval(s.contract)
    && s.contract.contractHash.HashOf?
    && ContentMatches(s.authority, s.contract)
    && (s.contract.governance.Some? ==>
          GovernanceSignatureValid(s.authority, s.contract, s.contract.contractHash))
    && PartiesAgree(s)
  }

  lemma FreshEstablishes(a: Authority, c: Contract)
    requires Fresh(a, c) && !NeedsJobApproval(c)
    ensures Inv(State(a, c, []))
  {
  }

  // ---- what each step leaves alone

  /** qs is ps but for signature blocks. */
  ghost predicate OnlySignaturesDiffer(ps: seq<DataProviderParty>, qs: seq<DataProviderParty>) {
    |ps| == |qs| && forall i :: 0 <= i < |ps| ==> qs[i] == ps[i].(signature := qs[i].signature)
  }

  lemma SignatureBlocksAreNotHashed(c: Contract, qs: seq<DataProviderParty>)
    requires OnlySignaturesDiffer(c.dataProviders, qs)
    ensures HashContract(c.(dataProviders := qs)) == HashContract(c)
  {
    assert BlankDataProviders(qs) == BlankDataProviders(c.dataProviders);
  }

  /** What an edit may not touch: who the parties are, their signatures, consents and infra. */
  ghost predicate EditFrame(c: Contract, d: Contract) {
    && d.contractHash == c.contractHash && d.governance == c.governance && d.infraProviders == c.infraProviders
    && d.technique == c.technique && d.version == c.version && d.jobId == c.jobId && d.contractId == c.contractId
    && d.lifecycle.requestedValidUntil == c.lifecycle.requestedValidUntil
    && |d.dataProviders| == |c.dataProviders|
    && forall i :: 0 <= i < |c.dataProviders| ==> SameSigner(c.dataProviders[i], d.dataProviders[i])
  }

  predicate SameSigner(p: DataProviderParty, q: DataProviderParty) {
    q.id == p.id && q.name == p.name && q.datasetId == p.datasetId
    && q.constraints == p.constraints && q.signature == p.signature
  }

  lemma FrameComposes(c: Contract, d: Contract, e: Contract)
    requires EditFrame(c, d) && EditFrame(d, e)
    ensures EditFrame(c, e)
  {
    forall i | 0 <= i < |c.dataProviders|
      ensures SameSigner(c.dataProviders[i], e.dataProviders[i])
    {
      assert SameSigner(c.dataProviders[i], d.dataProviders[i]);
      assert SameSigner(d.dataProviders[i], e.dataProviders[i]);
    }
  }

  lemma PartiesEditKeepsFrame(d: Draft, r: EditRequest)
    requires d.Draft? && |r.dataProviders| <= |d.contract.dataProviders|
    ensures EditFrame(d.contract, EditParties(d, r).contract)
  {
  }

  lemma LifecycleDraftKeepsFrame(c: Contract, r: EditRequest)
    ensures LifecycleDraft(c, r).Draft? ==> EditFrame(c, LifecycleDraft(c, r).contract)
  {
  }

  lemma WorkloadDraftKeepsFrame(c: Contract, r: EditRequest)
    ensures WorkloadDraft(c, r).Draft? ==> EditFrame(c, WorkloadDraft(c, r).contract)
  {
  }

  lemma SyncKeepsFrame(c: Contract)
    ensures EditFrame(c, SyncDerived(c))
  {
  }

  lemma DraftKeepsFrame(c: Contract, r: EditRequest)
    requires |r.dataProviders| <= |c.dataProviders|
    ensures EditDraft(c, r).Draft? ==> EditFrame(c, EditDraft(c, r).contract)
  {
    var d0 := LifecycleDraft(c, r);
    if d0.Draft? {
      LifecycleDraftKeepsFrame(c, r);
      var d1 := EditParties(d0, r);
      PartiesEditKeepsFrame(d0, r);
      var d2 := WorkloadDraft(d1.contract, r);
      if d2.Draft? {
        WorkloadDraftKeepsFrame(d1.contract, r);
        SyncKeepsFrame(d2.contract);
        FrameComposes(c, d0.contract, d1.contract);
        FrameComposes(c, d1.contract, d2.contract);
        FrameComposes(c, d2.contract, SyncDerived(d2.contract));
      }
    }
  }

  /** An accepted edit stores the draft with an amendment over it; a refused one stores nothing. */
  lemma EditOutcome(a: Authority, c: Contract, r: EditRequest, now: Time)
    ensures var o := EditContract(a, c, r, now);
      if o.reply == Accepted
      then |r.dataProviders| <= |c.dataProviders| && EditDraft(c, r).Draft? && a.govKey.Some?
           && o.contract == AmendSign(EditDraft(c, r).contract, a.govKey.value, now)
      else o.contract == c
  {
  }

  lemma AmendKeepsFrame(c: Contract, d: Contract, key: Key, now: Time)
    requires EditFrame(c, d)
    ensures EditFrame(c, AmendSign(d, key, now))
  {
    forall i | 0 <= i < |c.dataProviders|
      ensures SameSigner(c.dataProviders[i], AmendSign(d, key, now).dataProviders[i])
    {
      assert SameSigner(c.dataProviders[i], d.dataProviders[i]);
    }
  }

  lemma EditKeepsFrame(a: Authority, c: Contract, r: EditRequest, now: Time)
    ensures EditFrame(c, EditContract(a, c, r, now).contract)
  {
    hide EditContract, EditDraft, AmendSign;
    EditOutcome(a, c, r, now);
    if EditContract(a, c, r, now).reply == Accepted {
      DraftKeepsFrame(c, r);
      AmendKeepsFrame(c, EditDraft(c, r).contract, a.govKey.value, now);
    }
  }

  lemma AcceptedEditIsAmended(a: Authority, c: Contract, r: EditRequest, now: Time)
    ensures var o := EditContract(a, c, r, now);
      o.reply == Accepted ==> AmendmentValid(a, o.contract, HashContract(o.contract))
  {
    var o := EditContract(a, c, r, now);
    if o.reply == Accepted {
      var d := EditDraft(c, r).contract;
      assert Blank(o.contract) == Blank(d);
    }
  }

  // ---- each step keeps the invariant

  /** An accepted signature is the caller's over the current ContractHash, on every party of theirs. */
  lemma AcceptedSign(a: Authority, c: Contract, r: SignRequest, now: Time)
    ensures var o, id := SignContract(a, c, r, now), ProviderIdForUsername(r.username);
      if o.reply == Accepted
      then r.hash == c.contractHash && a.PublicKey(r.username).Some?
        && r.value == SignedBy(a.PublicKey(r.username).value, c.contractHash)
        && o.contract == c.(dataProviders := WithSignature(c.dataProviders, id, ProviderSignature(r, now)))
      else o.contract == c
  {
    hide HashContract, AmendmentValid, GovernanceSignatureValid, NeedsJobApproval, IsParty;
    hide ProviderIdForUsername, EqualFold, WithSignature, ProviderSignature;
  }

  /** New signature blocks alone keep the rest of the invariant. */
  lemma SignaturesKeepInv(s: State, t: State)
    requires Inv(s) && PartiesAgree(t) && t.authority == s.authority
    requires OnlySignaturesDiffer(s.contract.dataProviders, t.contract.dataProviders)
    requires t.contract == s.contract.(dataProviders := t.contract.dataProviders)
    ensures Inv(t)
  {
    hide PartiesAgree, HashContract;
    SignatureBlocksAreNotHashed(s.contract, t.contract.dataProviders);
  }

  lemma SignKeepsInv(s: State, r: SignRequest, now: Time)
    requires Inv(s)
    ensures Inv(Apply(s, Sign(r), now))
  {
    hide SignContract, ProviderIdForUsername, ContentMatches, NeedsJobApproval;
    var c, t := s.contract, Apply(s, Sign(r), now);
    AcceptedSign(s.authority, c, r, now);
    if SignContract(s.authority, c, r, now).reply == Accepted {
      forall i | 0 <= i < |c.dataProviders|
        ensures PartyAgrees(t, t.contract.dataProviders[i])
      {
        assert PartyAgrees(s, c.dataProviders[i]);
        LogGrows(s.log, t.log[|s.log|], PartyProviderId(c.dataProviders[i]));
      }
      SignaturesKeepInv(s, t);
    }
  }

  lemma WithdrawKeepsInv(s: State, username: string, now: Time)
    requires Inv(s)
    ensures Inv(Apply(s, Withdraw(username), now))
  {
    hide IsParty, HasSigned, ProviderIdForUsername, ContentMatches, NeedsJobApproval;
    var c, t := s.contract, Apply(s, Withdraw(username), now);
    if WithdrawConsent(c, username, now).reply == Accepted {
      forall i | 0 <= i < |c.dataProviders|
        ensures PartyAgrees(t, t.contract.dataProviders[i])
      {
        assert PartyAgrees(s, c.dataProviders[i]);
        LogGrows(s.log, t.log[|s.log|], PartyProviderId(c.dataProviders[i]));
      }
      SignaturesKeepInv(s, t);
    }
  }

  lemma InviteKeepsInv(s: State, username: string, now: Time)
    requires Inv(s)
    ensures Inv(Apply(s, Invite(username), now))
  {
    hide ContentMatches, NeedsJobApproval, ProviderIdForUsername;
    var c, t := s.contract, Apply(s, Invite(username), now);
    forall i | 0 <= i < |c.dataProviders|
      ensures PartyAgrees(t, t.contract.dataProviders[i])
    {
      assert PartyAgrees(s, c.dataProviders[i]);
    }
    SignaturesKeepInv(s, t);
  }

  /** A provider of a cleared signature had signed every party of theirs. */
  lemma ResignersSigned(s: State, i: nat)
    requires PartiesAgree(s) && i < |s.contract.dataProviders|
    requires PartyProviderId(s.contract.dataProviders[i]) in Resigners(s.contract)
    ensures s.contract.dataProviders[i].signature.value != NoValue
  {
    hide PartyProviderId, ProviderIdForUsername;
    var ps := s.contract.dataProviders;
    var j :| 0 <= j < |ps| && ps[j].signature.value != NoValue && PartyProviderId(ps[j]) == PartyProviderId(ps[i]);
    assert PartyAgrees(s, ps[i]) && PartyAgrees(s, ps[j]);
  }

  /** An accepted set-expiry rehashes and re-signs, in place, what ExpiryApplied leaves. */
  lemma AcceptedExpiry(a: Authority, c: Contract, username: string, until: Option<Time>, now: Time)
    ensures var o, id := SetConsentExpiry(a, c, username, until, now), ProviderIdForUsername(username);
      if o.reply == Accepted
      then until.Some? && a.govKey.Some? && IsParty(c, id) && !HasSigned(c, id)
        && o.contract == GovernanceSign(Rehash(ExpiryApplied(c, id, until.value)), a.govKey.value, now)
      else o.contract == c
  {
    hide IsParty, HasSigned, ProviderIdForUsername, ExpiryApplied, NeedsJobApproval, GovernanceSign, Rehash;
  }

  lemma ResignedMatches(a: Authority, c: Contract, key: Key, now: Time)
    requires a.govKey == Some(key)
    ensures var d := GovernanceSign(Rehash(c), key, now);
      && d.contractHash.HashOf? && ContentMatches(a, d) && d.governance.Some?
      && GovernanceSignatureValid(a, d, d.contractHash)
      && d.dataProviders == c.dataProviders && d.infraProviders == c.infraProviders
  {
    assert Blank(GovernanceSign(Rehash(c), key, now)) == Blank(c);
  }

  /** Setting an expiry leaves no recorded signature behind: every signer was among the cleared. */
  lemma ExpiryKeepsInv(s: State, username: string, until: Option<Time>, now: Time)
    requires Inv(s)
    ensures Inv(Apply(s, SetExpiry(username, until), now))
  {
    hide SetConsentExpiry, GovernanceSign, Rehash, IsParty, HasSigned, ContentMatches, ProviderIdForUsername, Resigners;
    hide EarliestConsentExpiry, GovernanceSignatureValid;
    var c, t := s.contract, Apply(s, SetExpiry(username, until), now);
    AcceptedExpiry(s.authority, c, username, until, now);
    if SetConsentExpiry(s.authority, c, username, until, now).reply == Accepted {
      var id := ProviderIdForUsername(username);
      var applied := ExpiryApplied(c, id, until.value);
      ResignedMatches(s.authority, applied, s.authority.govKey.value, now);
      forall i | 0 <= i < |c.dataProviders|
        ensures PartyAgrees(t, t.contract.dataProviders[i])
      {
        ExpiryPartyAgrees(s, t, id, until.value, i);
      }
      assert NeedsJobApproval(applied) == NeedsJobApproval(c);
    }
  }

  lemma ExpiryPartyAgrees(s: State, t: State, id: string, until: Time, i: nat)
    requires PartiesAgree(s) && i < |s.contract.dataProviders|
    requires t.contract.dataProviders == WithExpiry(s.contract.dataProviders, id, until)
    requires t.log == s.log + [ExpirySet(id, until, Resigners(s.contract))]
    ensures PartyAgrees(t, t.contract.dataProviders[i])
  {
    hide ProviderIdForUsername, Consent, LastExpiry;
    var p, q := s.contract.dataProviders[i], t.contract.dataProviders[i];
    assert PartyAgrees(s, p);
    assert PartyProviderId(q) == PartyProviderId(p);
    LogGrows(s.log, ExpirySet(id, until, Resigners(s.contract)), PartyProviderId(p));
    if PartyProviderId(p) in Resigners(s.contract) {
      ResignersSigned(s, i);
    } else {
      assert p.signature.value == NoValue;
    }
  }

  lemma EditKeepsInv(s: State, r: EditRequest, now: Time)
    requires Inv(s)
    ensures Inv(Apply(s, Edit(r), now))
  {
    hide EditContract, ContentMatches, AmendmentValid, ProviderIdForUsername;
    var c, t := s.contract, Apply(s, Edit(r), now);
    EditKeepsFrame(s.authority, c, r, now);
    EditedMatches(s.authority, c, r, now);
    forall i | 0 <= i < |c.dataProviders|
      ensures PartyAgrees(t, t.contract.dataProviders[i])
    {
      assert PartyAgrees(s, c.dataProviders[i]);
      assert SameSigner(c.dataProviders[i], t.contract.dataProviders[i]);
    }
  }

  lemma EditedMatches(a: Authority, c: Contract, r: EditRequest, now: Time)
    requires ContentMatches(a, c)
    ensures ContentMatches(a, EditContract(a, c, r, now).contract)
  {
    hide EditContract, AmendmentValid, HashContract, EditDraft;
    EditOutcome(a, c, r, now);
    AcceptedEditIsAmended(a, c, r, now);
  }

  /** All requests but edits and expiries change signature blocks only. */
  lemma OthersOnlySign(s: State, req: Request, now: Time)
    requires !req.Edit? && !req.SetExpiry?
    ensures var c, d := s.contract, Apply(s, req, now).contract;
      d == c.(dataProviders := d.dataProviders) && OnlySignaturesDiffer(c.dataProviders, d.dataProviders)
  {
    hide SignContract, ProviderIdForUsername, PartyProviderId, IsParty, HasSigned;
    match req
    case Sign(r) => AcceptedSign(s.authority, s.contract, r, now);
    case _ =>
  }

  lemma ApplyKeepsInv(s: State, req: Request, now: Time)
    requires Inv(s)
    ensures Inv(Apply(s, req, now))
  {
    match req
    case Sign(r) => SignKeepsInv(s, r, now);
    case Withdraw(username) => WithdrawKeepsInv(s, username, now);
    case SetExpiry(username, until) => ExpiryKeepsInv(s, username, until, now);
    case Edit(r) => EditKeepsInv(s, r, now);
    case Invite(username) => InviteKeepsInv(s, username, now);
    case RegisterKey(username, key) =>
      var t := Apply(s, req, now);
      forall i | 0 <= i < |s.contract.dataProviders|
        ensures PartyAgrees(t, t.contract.dataProviders[i])
      {
        assert PartyAgrees(s, s.contract.dataProviders[i]);
      }
  }

  /** Main result: the joint invariant holds after every run from a fresh contract. */
  lemma {:induction false} EveryRunKeepsInv(a: Authority, c: Contract, reqs: seq<Timed>)
    requires Fresh(a, c) && !NeedsJobApproval(c)
    ensures Inv(Run(State(a, c, []), reqs))
  {
    if reqs == [] {
      FreshEstablishes(a, c);
    } else {
      var n := |reqs| - 1;
      EveryRunKeepsInv(a, c, reqs[..n]);
      ApplyKeepsInv(Run(State(a, c, []), reqs[..n]), reqs[n].0, reqs[n].1);
    }
  }

  // ---- what the run gate means

  /** provider's latest consent event is a signature over hash, by a signer whose key is still the registered one. */
  predicate Consents(s: State, provider: string, hash: Hash) {
    match Consent(s.log, provider)
    case Some(Gave(_, _, signer, key, h)) => h == hash && s.authority.PublicKey(signer) == Some(key)
    case _ => false
  }

  predicate Unexpired(s: State, provider: string, now: Time) {
    var u := LastExpiry(s.log, provider);
    u.Some? ==> now <= u.value
  }

  /** Every data provider on the contract stands by it at now, judged from the history alone. */
  ghost predicate AllStandBy(s: State, now: Time) {
    forall i :: 0 <= i < |s.contract.dataProviders| ==>
      var provider := PartyProviderId(s.contract.dataProviders[i]);
      Consents(s, provider, s.contract.contractHash) && Unexpired(s, provider, now)
  }

  lemma PartyValidIffConsents(s: State, i: nat)
    requires Inv(s) && i < |s.contract.dataProviders|
    ensures var p := s.contract.dataProviders[i];
      Valid(DataProviderStatus(s.authority, p, s.contract.contractHash, true)) <==>
      Consents(s, PartyProviderId(p), s.contract.contractHash)
  {
    var p := s.contract.dataProviders[i];
    assert PartyAgrees(s, p);
    ConsentIsOwn(s.log, PartyProviderId(p));
  }

  lemma {:induction false} ConsentIsOwn(log: seq<Event>, provider: string)
    ensures Consent(log, provider).Some? ==> Concerns(Consent(log, provider).value, provider)
  {
    if log != [] && !Concerns(log[|log| - 1], provider) {
      ConsentIsOwn(log[..|log| - 1], provider);
    }
  }

  lemma GateReadsHistory(s: State, now: Time)
    requires Inv(s)
    ensures Gate(s.authority, s.contract, now) == Passed <==>
      && Signable(s.contract) && s.contract.governance.Some? && |s.contract.dataProviders| > 0
      && AllStandBy(s, now)
  {
    var a, c := s.authority, s.contract;
    var sts := ContractStatuses(a, c);
    assert |sts| == |c.dataProviders|;
    forall i | 0 <= i < |c.dataProviders|
      ensures Valid(sts[i]) <==> Consents(s, PartyProviderId(c.dataProviders[i]), c.contractHash)
      ensures c.dataProviders[i].constraints.consentValidUntil
              == LastExpiry(s.log, PartyProviderId(c.dataProviders[i]))
    {
      PartyValidIffConsents(s, i);
      assert PartyAgrees(s, c.dataProviders[i]);
    }
    if AllValid(sts) {
      forall i | 0 <= i < |c.dataProviders|
        ensures Consents(s, PartyProviderId(c.dataProviders[i]), c.contractHash)
      {
        assert Valid(sts[i]);
      }
    }
  }

  /**
   * Main result: after any run from a fresh contract, the gate opens at now exactly
   * when the contract is signable and governance-signed, names a data provider, and
   * every data provider's latest consent event is a signature over the current
   * ContractHash under their registered key, with no consent expiry before now.
   */
  lemma {:induction false} GateIsExactOverRuns(a: Authority, c: Contract, reqs: seq<Timed>, now: Time)
    requires Fresh(a, c) && !NeedsJobApproval(c)
    ensures var s := Run(State(a, c, []), reqs);
      Gate(s.authority, s.contract, now) == Passed <==>
        && Signable(s.contract) && s.contract.governance.Some? && |s.contract.dataProviders| > 0
        && AllStandBy(s, now)
  {
    EveryRunKeepsInv(a, c, reqs);
    GateReadsHistory(Run(State(a, c, []), reqs), now);
  }

  /** Parties of one provider carry the same recorded signature and the same consent expiry. */
  lemma {:induction false} PartiesOfOneProviderAgree(a: Authority, c: Contract, reqs: seq<Timed>, i: nat, j: nat)
    requires Fresh(a, c) && !NeedsJobApproval(c)
    requires var ps := Run(State(a, c, []), reqs).contract.dataProviders;
      i < |ps| && j < |ps| && PartyProviderId(ps[i]) == PartyProviderId(ps[j])
    ensures var s := Run(State(a, c, []), reqs);
      var p, q := s.contract.dataProviders[i], s.contract.dataProviders[j];
      && (p.signature.value != NoValue ==>
            && p.signature == q.signature
            && p.signature.signedHash == s.contract.contractHash
            && p.signature.withdrawnAt.None?
            && ProviderIdForUsername(p.signature.signer) == PartyProviderId(p)
            && exists key: Key :: p.signature.value == SignedBy(key, s.contract.contractHash))
      && p.constraints.consentValidUntil == q.constraints.consentValidUntil
  {
    EveryRunKeepsInv(a, c, reqs);
    var s := Run(State(a, c, []), reqs);
    assert PartyAgrees(s, s.contract.dataProviders[i]);
    assert PartyAgrees(s, s.contract.dataProviders[j]);
    ConsentIsOwn(s.log, PartyProviderId(s.contract.dataProviders[i]));
    if s.contract.dataProviders[i].signature.value != NoValue {
      var key := s.contract.dataProviders[i].signature.value.key;
      assert s.contract.dataProviders[i].signature.value == SignedBy(key, s.contract.contractHash);
    }
  }

  /** The setter of an expiry has not signed the new hash, so the gate is shut until they do. */
  lemma ExpiryShutsGate(s: State, username: string, until: Option<Time>, now: Time, later: Time)
    requires Inv(s) && SetConsentExpiry(s.authority, s.contract, username, until, now).reply == Accepted
    ensures var t := Apply(s, SetExpiry(username, until), now);
      Gate(t.authority, t.contract, later) != Passed
  {
    hide SetConsentExpiry, Gate, Signable, ProviderIdForUsername, GovernanceSign, Rehash;
    var c, t, id := s.contract, Apply(s, SetExpiry(username, until), now), ProviderIdForUsername(username);
    ExpiryKeepsInv(s, username, until, now);
    GateReadsHistory(t, later);
    AcceptedExpiry(s.authority, c, username, until, now);
    var applied := ExpiryApplied(c, id, until.value);
    ResignedMatches(s.authority, applied, s.authority.govKey.value, now);
    var i :| 0 <= i < |c.dataProviders| && PartyProviderId(c.dataProviders[i]) == id;
    assert t.contract.dataProviders == WithExpiry(c.dataProviders, id, until.value);
    assert PartyProviderId(t.contract.dataProviders[i]) == id;
    assert t.contract.dataProviders[i].signature.value == NoValue;
    assert PartyAgrees(t, t.contract.dataProviders[i]);
  }

  lemma WithdrawalShutsGate(s: State, username: string, now: Time, later: Time)
    requires Inv(s) && WithdrawConsent(s.contract, username, now).reply == Accepted
    ensures var t := Apply(s, Withdraw(username), now);
      t.contract.contractHash == s.contract.contractHash && Gate(t.authority, t.contract, later) != Passed
  {
    hide Gate, Signable, ProviderIdForUsername, ContentMatches, HasSigned;
    var t := Apply(s, Withdraw(username), now);
    WithdrawKeepsInv(s, username, now);
    GateReadsHistory(t, later);
    var i :| 0 <= i < |s.contract.dataProviders| &&
      PartyProviderId(s.contract.dataProviders[i]) == ProviderIdForUsername(username);
    assert PartyProviderId(t.contract.dataProviders[i]) == ProviderIdForUsername(username);
    LogGrows(s.log, t.log[|s.log|], ProviderIdForUsername(username));
  }

  /** What signing and withdrawing leave alone. */
  ghost predicate SameParties(c: Contract, d: Contract) {
    && d.contractHash == c.contractHash && d.governance == c.governance
    && d.technique == c.technique && d.version == c.version
    && |d.dataProviders| == |c.dataProviders|
    && forall i :: 0 <= i < |c.dataProviders| ==>
         PartyProviderId(d.dataProviders[i]) == PartyProviderId(c.dataProviders[i])
  }

  lemma SignKeepsParties(s: State, r: SignRequest, now: Time)
    ensures SameParties(s.contract, Apply(s, Sign(r), now).contract)
  {
    hide SignContract, ProviderIdForUsername;
    AcceptedSign(s.authority, s.contract, r, now);
    var c, d := s.contract, SignContract(s.authority, s.contract, r, now).contract;
    forall i | 0 <= i < |c.dataProviders|
      ensures i < |d.dataProviders| && PartyProviderId(d.dataProviders[i]) == PartyProviderId(c.dataProviders[i])
    {
    }
  }

  lemma WithdrawKeepsParties(s: State, username: string, now: Time)
    ensures SameParties(s.contract, Apply(s, Withdraw(username), now).contract)
  {
    hide IsParty, HasSigned, ProviderIdForUsername;
    var c, d := s.contract, WithdrawConsent(s.contract, username, now).contract;
    forall i | 0 <= i < |c.dataProviders|
      ensures i < |d.dataProviders| && PartyProviderId(d.dataProviders[i]) == PartyProviderId(c.dataProviders[i])
    {
    }
  }

  /** The request by which username signs c's ContractHash with their registered key. */
  function OwnSignature(a: Authority, c: Contract, username: string): SignRequest {
    SignRequest(username, "", c.contractHash, SignedBy(a.PublicKey(username).GetOr(""), c.contractHash), true)
  }

  lemma PartyMaySign(s: State, username: string, now: Time)
    requires Inv(s) && Signable(s.contract) && s.contract.governance.Some?
    requires IsParty(s.contract, ProviderIdForUsername(username)) && s.authority.PublicKey(username).Some?
    ensures var req := OwnSignature(s.authority, s.contract, username);
      SignContract(s.authority, s.contract, req, now).reply == Accepted
  {
  }

  /** Signing again after a withdrawal undoes it: the gate that was open opens again. */
  lemma SigningAgainUndoesWithdrawal(s: State, username: string, t1: Time, t2: Time, now: Time)
    requires Inv(s) && Gate(s.authority, s.contract, now) == Passed
    requires WithdrawConsent(s.contract, username, t1).reply == Accepted
    requires s.authority.PublicKey(username).Some?
    ensures var w := Apply(s, Withdraw(username), t1);
      var t := Apply(w, Sign(OwnSignature(w.authority, w.contract, username)), t2);
      Gate(t.authority, t.contract, now) == Passed
  {
    hide Gate, SignContract, ContentMatches, ProviderIdForUsername, PartyProviderId, NeedsJobApproval, HasSigned;
    hide GovernanceSignatureValid, WithWithdrawal, PartiesAgree;
    var w := Apply(s, Withdraw(username), t1);
    var req := OwnSignature(w.authority, w.contract, username);
    var t := Apply(w, Sign(req), t2);
    var id := ProviderIdForUsername(username);
    WithdrawKeepsParties(s, username, t1);
    SignKeepsParties(w, req, t2);
    GateReadsHistory(s, now);
    WithdrawKeepsInv(s, username, t1);
    assert IsParty(w.contract, id) by {
      var i :| 0 <= i < |s.contract.dataProviders| && PartyProviderId(s.contract.dataProviders[i]) == id;
      assert PartyProviderId(w.contract.dataProviders[i]) == id;
    }
    PartyMaySign(w, username, t2);
    SignKeepsInv(w, req, t2);
    GateReadsHistory(t, now);
    assert AllStandBy(t, now) by {
      forall i | 0 <= i < |t.contract.dataProviders|
        ensures var provider := PartyProviderId(t.contract.dataProviders[i]);
          Consents(t, provider, t.contract.contractHash) && Unexpired(t, provider, now)
      {
        var provider := PartyProviderId(s.contract.dataProviders[i]);
        assert PartyProviderId(w.contract.dataProviders[i]) == provider;
        LogGrows(s.log, TookBack(id), provider);
        LogGrows(w.log, t.log[|w.log|], provider);
      }
    }
  }

  // ---- consumer edits

  lemma FrameKeepsErrors(a: Authority, c: Contract, d: Contract)
    requires EditFrame(c, d) && ContentMatches(a, c) && ContentMatches(a, d)
    ensures |ContractStatuses(a, d)| == |ContractStatuses(a, c)|
    ensures forall i :: 0 <= i < |ContractStatuses(a, c)| ==>
      ContractStatuses(a, d)[i].error == ContractStatuses(a, c)[i].error
  {
    hide ContentMatches;
    assert NeedsJobApproval(d) == NeedsJobApproval(c);
    var x := DataProviderStatuses(a, c.dataProviders, c.contractHash, true);
    var y := DataProviderStatuses(a, d.dataProviders, c.contractHash, true);
    forall i | 0 <= i < |c.dataProviders|
      ensures x[i].error == y[i].error
    {
      assert SameSigner(c.dataProviders[i], d.dataProviders[i]);
    }
  }

  lemma FrameKeepsVerdict(a: Authority, c: Contract, d: Contract, t: Time)
    requires EditFrame(c, d) && ContentMatches(a, c) && ContentMatches(a, d)
    ensures Gate(a, d, t) == Gate(a, c, t)
  {
    hide ContentMatches, ContractStatuses;
    FrameKeepsErrors(a, c, d);
    var x, y := ContractStatuses(a, c), ContractStatuses(a, d);
    assert AllValid(x) == AllValid(y) by {
      assert forall i :: 0 <= i < |x| ==> Valid(x[i]) == Valid(y[i]);
    }
    assert NeedsJobApproval(d) == NeedsJobApproval(c);
    assert ConsentCurrent(c, t) == ConsentCurrent(d, t) by {
      assert forall i :: 0 <= i < |c.dataProviders| ==> SameSigner(c.dataProviders[i], d.dataProviders[i]);
    }
  }

  /**
   * From any contract whose content matches, an accepted edit leaves the signed hash,
   * the governance signature, every party's verdict and the gate's answer as they were.
   */
  lemma EditKeepsVerdict(a: Authority, c: Contract, r: EditRequest, now: Time, t: Time)
    requires ContentMatches(a, c)
    requires EditContract(a, c, r, now).reply == Accepted
    ensures var d := EditContract(a, c, r, now).contract;
      && d.contractHash == c.contractHash && d.governance == c.governance
      && |ContractStatuses(a, d)| == |ContractStatuses(a, c)|
      && (forall i :: 0 <= i < |ContractStatuses(a, c)| ==>
            ContractStatuses(a, d)[i].error == ContractStatuses(a, c)[i].error)
      && Gate(a, d, t) == Gate(a, c, t)
  {
    hide EditContract, Gate, ContractStatuses;
    EditKeepsFrame(a, c, r, now);
    AcceptedEditIsAmended(a, c, r, now);
    FrameKeepsErrors(a, c, EditContract(a, c, r, now).contract);
    FrameKeepsVerdict(a, c, EditContract(a, c, r, now).contract, t);
  }

  /**
   * After an accepted edit, the contents accepted in place of the edited one are exactly two:
   * the one ContractHash was computed from, and the edited one itself.
   */
  lemma ExactlyTwoContentsMatch(a: Authority, c: Contract, r: EditRequest, now: Time, x: Contract)
    requires EditContract(a, c, r, now).reply == Accepted
    requires var d := EditContract(a, c, r, now).contract;
      x.contractHash == d.contractHash && x.amendment == d.amendment
    ensures var d := EditContract(a, c, r, now).contract;
      ContentMatches(a, x) <==> HashContract(x) == d.contractHash || SameUnsigned(x, d)
  {
    hide EditContract;
    var d := EditContract(a, c, r, now).contract;
    AcceptedEditIsAmended(a, c, r, now);
    HashIgnoresExactlySignatures(x, d);
  }
}
