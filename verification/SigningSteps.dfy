/**
 * Exactly when the signing, withdrawal and set-expiry requests are taken, and what each leaves of the
 * stored contract, field by field (contract_signing.go, consent_withdrawal.go, consent_expiry.go).
 */
module SigningSteps {
  import opened Wrappers
  import opened Text
  import opened Contracts
  import opened Signing
  import opened Verification

  /** Some data-provider party is the provider's. */
  predicate Provides(c: Contract, providerId: string) {
    exists p <- c.dataProviders :: PartyProviderId(p) == providerId
  }

  /** A signature of the provider's is recorded on the contract. */
  predicate Recorded(c: Contract, providerId: string) {
    exists p <- c.dataProviders :: PartyProviderId(p) == providerId && p.signature.value != NoValue
  }

  lemma PartyExactly(c: Contract, providerId: string)
    ensures IsParty(c, providerId) <==> Provides(c, providerId)
    ensures HasSigned(c, providerId) <==> Recorded(c, providerId)
  {
    hide PartyProviderId;
    if p :| p in c.dataProviders && PartyProviderId(p) == providerId {
      var i :| 0 <= i < |c.dataProviders| && c.dataProviders[i] == p;
      assert PartyProviderId(c.dataProviders[i]) == providerId;
    }
    if p :| p in c.dataProviders && PartyProviderId(p) == providerId && p.signature.value != NoValue {
      var i :| 0 <= i < |c.dataProviders| && c.dataProviders[i] == p;
      assert PartyProviderId(c.dataProviders[i]) == providerId && c.dataProviders[i].signature.value != NoValue;
    }
  }

  /** d is c with the parties at the same places, each providerId's with its signature block replaced by sig. */
  ghost predicate OwnSigned(c: Contract, d: Contract, providerId: string, sig: Signature) {
    && |d.dataProviders| == |c.dataProviders| && d == c.(dataProviders := d.dataProviders)
    && forall i :: 0 <= i < |c.dataProviders| ==>
      var p := c.dataProviders[i];
      d.dataProviders[i] == if PartyProviderId(p) == providerId then p.(signature := sig) else p
  }

  // ---- signing

  /** The signature is the caller's own, over the hash their provider and the layer stand for. */
  ghost predicate MaySign(a: Authority, c: Contract, r: SignRequest) {
    && (r.claimedUsername == "" || Lower(r.claimedUsername) == Lower(r.username))
    && r.hash != NoHash && r.value != NoValue
    && (c.technique == "FL" ==> c.version >= 2)
    && (UnderJobApproval(c) ==> r.jobAccepted)
    && r.hash == c.contractHash && ContentStands(a, c) && LayerBlock(a, c.governance, c.contractHash)
    && Provides(c, ProviderIdForUsername(r.username))
    && SignedAs(a, r.username, r.hash, r.value)
  }

  /**
   * Main result: exactly which signatures are taken, and an accepted one stands on every party of
   * the caller's, and nothing else changes.
   */
  lemma {:induction false} SignExactly(a: Authority, c: Contract, r: SignRequest, now: Time)
    ensures var o := SignContract(a, c, r, now);
      && (o.reply == Accepted <==> MaySign(a, c, r))
      && (o.reply != Accepted ==> o.contract == c)
      && (o.reply == Accepted ==>
            OwnSigned(c, o.contract, ProviderIdForUsername(r.username),
                      Signature(Some(now), r.username, "RSASSA-PKCS1-v1_5-SHA256", c.contractHash, r.value, None)))
  {
    hide HashContract, NeedsJobApproval, UnderJobApproval, IsParty, ProviderIdForUsername, PartyProviderId, Provides;
    NeedsJobApprovalExactly(c);
    ContentMatchesExactly(a, c);
    PartyExactly(c, ProviderIdForUsername(r.username));
  }

  // ---- withdrawing

  /** Main result: consent is withdrawn exactly from a TEE contract the caller signed, and the parties say so. */
  lemma {:induction false} WithdrawExactly(c: Contract, username: string, now: Time)
    ensures var o, id := WithdrawConsent(c, username, now), ProviderIdForUsername(username);
      && (o.reply == Accepted <==> c.technique == "TEE" && Recorded(c, id))
      && (o.reply != Accepted ==> o.contract == c)
      && (o.reply == Accepted ==>
            OwnSigned(c, o.contract, id, Signature(None, username, "", NoHash, NoValue, Some(now))))
  {
    hide IsParty, HasSigned, ProviderIdForUsername, PartyProviderId;
    PartyExactly(c, ProviderIdForUsername(username));
  }

  // ---- consent expiries

  /** The end the contract was generated with. */
  function OriginalEnd(c: Contract): Time {
    if c.lifecycle.requestedValidUntil.Some? then c.lifecycle.requestedValidUntil.value else c.lifecycle.validUntil
  }

  /** An expiry within the original end, after now, by a provider who has not signed, on a contract the layer signed. */
  predicate MayExpire(a: Authority, c: Contract, username: string, until: Option<Time>, now: Time) {
    && until.Some? && now < until.value && (OriginalEnd(c) != 0 ==> until.value <= OriginalEnd(c))
    && (c.technique == "TEE" || c.technique == "SMPC")
    && !UnderJobApproval(c) && c.governance.Some? && a.govKey.Some?
    && Provides(c, ProviderIdForUsername(username)) && !Recorded(c, ProviderIdForUsername(username))
  }

  /** A recorded signature is taken off, but for its signer and any withdrawal. */
  function TakenOff(sig: Signature): Signature {
    if sig.value == NoValue then sig else Signature(None, sig.signer, "", NoHash, NoValue, sig.withdrawnAt)
  }

  /** out is the least of the expiries set on ps and of end, when that is set, and 0 when nothing is. */
  ghost predicate IsLeast(out: Time, end: Time, ps: seq<DataProviderParty>) {
    var some := end != 0 || exists p <- ps :: p.constraints.consentValidUntil.Some?;
    if some
    then
      && (end != 0 ==> out <= end)
      && (forall p <- ps :: p.constraints.consentValidUntil.Some? ==> out <= p.constraints.consentValidUntil.value)
      && ((end != 0 && out == end) || exists p <- ps :: p.constraints.consentValidUntil == Some(out))
    else out == 0
  }

  lemma {:induction false} EarliestExactly(ps: seq<DataProviderParty>, end: Time)
    requires forall p <- ps :: p.constraints.consentValidUntil != Some(0)
    ensures IsLeast(EarliestConsentExpiry(ps, end), end, ps)
  {
    if ps != [] {
      var n := |ps| - 1;
      assert ps == ps[..n] + [ps[n]];
      EarliestExactly(ps[..n], end);
      LeastGrows(ps[..n], ps[n], end, EarliestConsentExpiry(ps[..n], end));
    }
  }

  lemma LeastGrows(ps: seq<DataProviderParty>, p: DataProviderParty, end: Time, out: Time)
    requires IsLeast(out, end, ps) && p.constraints.consentValidUntil != Some(0)
    requires forall q <- ps :: q.constraints.consentValidUntil != Some(0)
    ensures var u := p.constraints.consentValidUntil;
      IsLeast(if u.Some? && (out == 0 || u.value < out) then u.value else out, end, ps + [p])
  {
  }

  /**
   * Main result: exactly which expiries are taken. An accepted one is set on every party of the
   * caller's, every recorded signature is taken off, the original end is kept and the end is the
   * earliest expiry within it, and the layer signs the hash of what is left.
   */
  lemma {:induction false} ExpiryExactly(a: Authority, c: Contract, username: string, until: Option<Time>, now: Time)
    ensures var o, id := SetConsentExpiry(a, c, username, until, now), ProviderIdForUsername(username);
      var d := o.contract;
      && (o.reply == Accepted <==> MayExpire(a, c, username, until, now))
      && (o.reply != Accepted ==> d == c)
      && (o.reply == Accepted ==>
            && ExpirySet(c, d, id, until.value)
            && d.contractHash == HashContract(d)
            && d.governance == Some(Signature(Some(now), "governance-layer", "RSASSA-PKCS1-v1_5-SHA256",
                                              d.contractHash, SignedBy(a.govKey.value, d.contractHash), None)))
  {
    hide HashContract, NeedsJobApproval, UnderJobApproval, IsParty, HasSigned, ProviderIdForUsername, Recorded;
    hide PartyProviderId, Provides, EarliestConsentExpiry, ExpiryApplied, ExpirySet;
    NeedsJobApprovalExactly(c);
    PartyExactly(c, ProviderIdForUsername(username));
    if MayExpire(a, c, username, until, now) {
      var applied := ExpiryApplied(c, ProviderIdForUsername(username), until.value);
      AppliedExactly(c, ProviderIdForUsername(username), until.value);
      Resigned(applied, a.govKey.value, now);
      SetThroughout(c, applied, GovernanceSign(Rehash(applied), a.govKey.value, now),
                    ProviderIdForUsername(username), until.value);
    }
  }

  /** The parties and the lifecycle an expiry leaves; hash and governance signature aside, nothing else changes. */
  ghost predicate ExpirySet(c: Contract, d: Contract, providerId: string, until: Time) {
    var end := OriginalEnd(c);
    && d == c.(dataProviders := d.dataProviders, lifecycle := d.lifecycle, contractHash := d.contractHash,
               governance := d.governance)
    && |d.dataProviders| == |c.dataProviders|
    && (forall i :: 0 <= i < |c.dataProviders| ==>
          var p := c.dataProviders[i];
          d.dataProviders[i] == p.(
            signature := TakenOff(p.signature),
            constraints := if PartyProviderId(p) == providerId
                           then p.constraints.(consentValidUntil := Some(until)) else p.constraints))
    && d.lifecycle == c.lifecycle.(
         requestedValidUntil := if end != 0 then Some(end) else c.lifecycle.requestedValidUntil,
         validUntil := d.lifecycle.validUntil)
    && ((forall p <- d.dataProviders :: p.constraints.consentValidUntil != Some(0)) ==>
          IsLeast(d.lifecycle.validUntil, end, d.dataProviders))
  }

  lemma AppliedExactly(c: Contract, providerId: string, until: Time)
    ensures ExpirySet(c, ExpiryApplied(c, providerId, until), providerId, until)
  {
    hide PartyProviderId, IsLeast, EarliestConsentExpiry;
    var d := ExpiryApplied(c, providerId, until);
    if forall p <- d.dataProviders :: p.constraints.consentValidUntil != Some(0) {
      EarliestExactly(d.dataProviders, RequestedEnd(c));
    }
  }

  lemma SetThroughout(c: Contract, d: Contract, e: Contract, providerId: string, until: Time)
    requires ExpirySet(c, d, providerId, until)
    requires e == d.(contractHash := e.contractHash, governance := e.governance)
    ensures ExpirySet(c, e, providerId, until)
  {
    hide PartyProviderId, IsLeast;
  }

  lemma Resigned(c: Contract, key: Key, now: Time)
    ensures var d := GovernanceSign(Rehash(c), key, now);
      d.contractHash == HashContract(c) == HashContract(d)
  {
    assert Blank(GovernanceSign(Rehash(c), key, now)) == Blank(c);
  }

  // ---- participation

  /** Accepting a participation notification stamps the caller's unstamped parties, and nothing else. */
  lemma InviteExactly(c: Contract, username: string, now: Time)
    ensures var d := AcceptInvite(c, username, now);
      && d == c.(dataProviders := d.dataProviders) && |d.dataProviders| == |c.dataProviders|
      && forall i :: 0 <= i < |c.dataProviders| ==>
        var p, q := c.dataProviders[i], d.dataProviders[i];
        && q == p.(signature := p.signature.(signedAt := q.signature.signedAt))
        && (q != p <==> p.name == username && p.signature.signedAt.None?)
        && (q != p ==> q.signature.signedAt == Some(now))
  {
  }
}
