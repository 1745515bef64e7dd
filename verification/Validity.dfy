/**
 * How consent expiries shorten a contract: after any run without consumer
 * edits, its end is a function of the original end and each provider's last
 * expiry, whatever the order of the requests.
 */
module Validity {
  import opened Wrappers
  import opened Text
  import opened Contracts
  import opened Signing
  import opened SigningRuns

  function ExpiryOf(p: DataProviderParty): Option<Time> {
    p.constraints.consentValidUntil
  }

  predicate HasExpiry(ps: seq<DataProviderParty>) {
    exists i :: 0 <= i < |ps| && ExpiryOf(ps[i]).Some?
  }

  /** out is the least of v0 and the expiries set on ps. */
  ghost predicate IsEarliest(out: Time, v0: Time, ps: seq<DataProviderParty>) {
    && out <= v0
    && (forall i :: 0 <= i < |ps| && ExpiryOf(ps[i]).Some? ==> out <= ExpiryOf(ps[i]).value)
    && (out == v0 || exists i :: 0 <= i < |ps| && ExpiryOf(ps[i]) == Some(out))
  }

  /** Expiries are never the zero time and never after v0. */
  ghost predicate Bounded(v0: Time, ps: seq<DataProviderParty>) {
    forall i :: 0 <= i < |ps| && ExpiryOf(ps[i]).Some? ==> ZERO_TIME < ExpiryOf(ps[i]).value <= v0
  }

  lemma {:induction false} RunningMinimum(ps: seq<DataProviderParty>, v0: Time)
    requires v0 != ZERO_TIME && Bounded(v0, ps)
    ensures IsEarliest(EarliestConsentExpiry(ps, v0), v0, ps)
    ensures !HasExpiry(ps) ==> EarliestConsentExpiry(ps, v0) == v0
  {
    if ps != [] {
      var n := |ps| - 1;
      var init, out := ps[..n], EarliestConsentExpiry(ps[..n], v0);
      RunningMinimum(init, v0);
      if out != v0 {
        var i :| 0 <= i < |init| && ExpiryOf(init[i]) == Some(out);
        assert ExpiryOf(ps[i]) == Some(out);
      }
      assert forall i :: 0 <= i < n ==> ps[i] == init[i];
      if !HasExpiry(ps) {
        assert !HasExpiry(init);
      }
    }
  }

  // ---- runs without edits

  predicate EditFree(reqs: seq<Timed>) {
    forall i :: 0 <= i < |reqs| ==> !reqs[i].0.Edit? && ZERO_TIME <= reqs[i].1
  }

  /** ps are c0's providers, with expiries within c0's end. */
  ghost predicate PartiesBounded(c0: Contract, ps: seq<DataProviderParty>) {
    && Bounded(c0.lifecycle.validUntil, ps)
    && |ps| == |c0.dataProviders|
    && forall i :: 0 <= i < |ps| ==> PartyProviderId(ps[i]) == PartyProviderId(c0.dataProviders[i])
  }

  function Shortened(l0: Lifecycle, ps: seq<DataProviderParty>): Lifecycle {
    l0.(requestedValidUntil := if HasExpiry(ps) then Some(l0.validUntil) else None,
        validUntil := EarliestConsentExpiry(ps, l0.validUntil))
  }

  ghost predicate ValidityInv(c0: Contract, c: Contract) {
    PartiesBounded(c0, c.dataProviders) && c.lifecycle == Shortened(c0.lifecycle, c.dataProviders)
  }

  /** qs has ps's providers and expiries. */
  ghost predicate SameExpiries(ps: seq<DataProviderParty>, qs: seq<DataProviderParty>) {
    |ps| == |qs| && forall i :: 0 <= i < |ps| ==>
      PartyProviderId(qs[i]) == PartyProviderId(ps[i]) && ExpiryOf(qs[i]) == ExpiryOf(ps[i])
  }

  lemma {:induction false} SameExpiriesSameEarliest(ps: seq<DataProviderParty>, qs: seq<DataProviderParty>, v0: Time)
    requires SameExpiries(ps, qs)
    ensures EarliestConsentExpiry(ps, v0) == EarliestConsentExpiry(qs, v0) && HasExpiry(ps) == HasExpiry(qs)
  {
    hide PartyProviderId;
    if ps != [] {
      var n := |ps| - 1;
      SameExpiriesSameEarliest(ps[..n], qs[..n], v0);
      assert forall i :: 0 <= i < |ps| ==> ExpiryOf(qs[i]) == ExpiryOf(ps[i]);
    }
  }

  lemma WithExpiryBounded(c0: Contract, c: Contract, id: string, until: Time)
    requires PartiesBounded(c0, c.dataProviders) && IsParty(c, id)
    requires ZERO_TIME < until <= c0.lifecycle.validUntil
    ensures PartiesBounded(c0, WithExpiry(c.dataProviders, id, until))
    ensures HasExpiry(WithExpiry(c.dataProviders, id, until))
  {
    var ps := WithExpiry(c.dataProviders, id, until);
    var j :| 0 <= j < |c.dataProviders| && PartyProviderId(c.dataProviders[j]) == id;
    assert ExpiryOf(ps[j]) == Some(until);
    forall i | 0 <= i < |ps|
      ensures PartyProviderId(ps[i]) == PartyProviderId(c.dataProviders[i])
      ensures ExpiryOf(ps[i]) == Some(until) || ExpiryOf(ps[i]) == ExpiryOf(c.dataProviders[i])
    {
    }
  }

  lemma EndIsKept(c0: Contract, c: Contract)
    requires c0.lifecycle.validUntil != ZERO_TIME && ValidityInv(c0, c)
    ensures RequestedEnd(c) == c0.lifecycle.validUntil
  {
    RunningMinimum(c.dataProviders, c0.lifecycle.validUntil);
  }

  lemma ExpiryShortens(c0: Contract, c: Contract, id: string, until: Time)
    requires c0.lifecycle.validUntil != ZERO_TIME && ValidityInv(c0, c)
    requires IsParty(c, id) && ZERO_TIME < until <= c0.lifecycle.validUntil
    ensures ValidityInv(c0, ExpiryApplied(c, id, until))
  {
    hide HasExpiry, EarliestConsentExpiry, PartiesBounded, WithExpiry, IsParty;
    EndIsKept(c0, c);
    WithExpiryBounded(c0, c, id, until);
  }

  /** What an accepted set-expiry went through. */
  lemma ExpiryWithinEnd(a: Authority, c: Contract, username: string, until: Option<Time>, now: Time)
    ensures var o := SetConsentExpiry(a, c, username, until, now);
      if o.reply == Accepted
      then until.Some? && var d := ExpiryApplied(c, ProviderIdForUsername(username), until.value);
        && IsParty(c, ProviderIdForUsername(username))
        && now < until.value && (RequestedEnd(c) != ZERO_TIME ==> until.value <= RequestedEnd(c))
        && o.contract.dataProviders == d.dataProviders && o.contract.lifecycle == d.lifecycle
      else o.contract == c
  {
  }

  lemma ExpiryKeepsValidity(c0: Contract, s: State, username: string, until: Option<Time>, now: Time)
    requires c0.lifecycle.validUntil != ZERO_TIME <= now && ValidityInv(c0, s.contract)
    ensures ValidityInv(c0, Apply(s, SetExpiry(username, until), now).contract)
  {
    hide SetConsentExpiry, ExpiryApplied, HasExpiry, IsParty, Shortened, PartiesBounded, Resigners;
    var c := s.contract;
    ExpiryWithinEnd(s.authority, c, username, until, now);
    if SetConsentExpiry(s.authority, c, username, until, now).reply == Accepted {
      EndIsKept(c0, c);
      ExpiryShortens(c0, c, ProviderIdForUsername(username), until.value);
    }
  }

  lemma OthersKeepExpiries(s: State, req: Request, now: Time)
    requires !req.Edit? && !req.SetExpiry?
    ensures SameExpiries(s.contract.dataProviders, Apply(s, req, now).contract.dataProviders)
    ensures Apply(s, req, now).contract.lifecycle == s.contract.lifecycle
  {
    hide Apply, ProviderIdForUsername;
    OthersOnlySign(s, req, now);
  }

  lemma SameExpiriesKeepValidity(c0: Contract, c: Contract, d: Contract)
    requires ValidityInv(c0, c) && SameExpiries(c.dataProviders, d.dataProviders) && d.lifecycle == c.lifecycle
    ensures ValidityInv(c0, d)
  {
    hide EarliestConsentExpiry, HasExpiry, PartyProviderId;
    SameExpiriesSameEarliest(c.dataProviders, d.dataProviders, c0.lifecycle.validUntil);
  }

  lemma ApplyKeepsValidity(c0: Contract, s: State, req: Request, now: Time)
    requires c0.lifecycle.validUntil != ZERO_TIME <= now && !req.Edit? && ValidityInv(c0, s.contract)
    ensures ValidityInv(c0, Apply(s, req, now).contract)
  {
    hide Apply, ValidityInv, SameExpiries;
    if req.SetExpiry? {
      ExpiryKeepsValidity(c0, s, req.username, req.until, now);
    } else {
      OthersKeepExpiries(s, req, now);
      SameExpiriesKeepValidity(c0, s.contract, Apply(s, req, now).contract);
    }
  }

  lemma {:induction false} RunsKeepValidity(a: Authority, c: Contract, reqs: seq<Timed>)
    requires Fresh(a, c) && c.lifecycle.validUntil != ZERO_TIME && EditFree(reqs)
    ensures ValidityInv(c, Run(State(a, c, []), reqs).contract)
  {
    if reqs == [] {
      RunningMinimum(c.dataProviders, c.lifecycle.validUntil);
    } else {
      var n := |reqs| - 1;
      RunsKeepValidity(a, c, reqs[..n]);
      ApplyKeepsValidity(c, Run(State(a, c, []), reqs[..n]), reqs[n].0, reqs[n].1);
    }
  }

  /** The earliest of v0 and each listed provider's last expiry in the log. */
  ghost predicate IsEarliestInLog(out: Time, v0: Time, log: seq<Event>, ps: seq<DataProviderParty>) {
    && out <= v0
    && (forall i :: 0 <= i < |ps| ==>
          var u := LastExpiry(log, PartyProviderId(ps[i])); u.Some? ==> out <= u.value)
    && (out == v0 || exists i :: 0 <= i < |ps| && LastExpiry(log, PartyProviderId(ps[i])) == Some(out))
  }

  /**
   * Main result: after any edit-free run, the end is the earliest of the original end
   * and every provider's last expiry; the original end is kept as soon as one was set.
   */
  lemma {:induction false} ValidityFollowsHistory(a: Authority, c: Contract, reqs: seq<Timed>)
    requires Fresh(a, c) && !NeedsJobApproval(c) && c.lifecycle.validUntil != ZERO_TIME && EditFree(reqs)
    ensures var s, v0 := Run(State(a, c, []), reqs), c.lifecycle.validUntil;
      && IsEarliestInLog(s.contract.lifecycle.validUntil, v0, s.log, c.dataProviders)
      && s.contract.lifecycle.requestedValidUntil ==
           (if exists i :: 0 <= i < |c.dataProviders| && LastExpiry(s.log, PartyProviderId(c.dataProviders[i])).Some?
            then Some(v0) else None)
  {
    hide EarliestConsentExpiry, LastExpiry, ContentMatches, PartyProviderId, Fresh, Run;
    var s, v0 := Run(State(a, c, []), reqs), c.lifecycle.validUntil;
    RunsKeepValidity(a, c, reqs);
    EveryRunKeepsInv(a, c, reqs);
    var ps := s.contract.dataProviders;
    RunningMinimum(ps, v0);
    forall i | 0 <= i < |ps|
      ensures ExpiryOf(ps[i]) == LastExpiry(s.log, PartyProviderId(c.dataProviders[i]))
    {
      assert PartyAgrees(s, ps[i]);
    }
    var out := s.contract.lifecycle.validUntil;
    if out != v0 {
      var i :| 0 <= i < |ps| && ExpiryOf(ps[i]) == Some(out);
      assert LastExpiry(s.log, PartyProviderId(c.dataProviders[i])) == Some(out);
    }
    if HasExpiry(ps) {
      var i :| 0 <= i < |ps| && ExpiryOf(ps[i]).Some?;
      assert LastExpiry(s.log, PartyProviderId(c.dataProviders[i])).Some?;
    }
  }

  /** Two edit-free runs in which every provider set the same last expiry leave the same validity window. */
  lemma {:induction false} OrderDoesNotMatter(a: Authority, c: Contract, r1: seq<Timed>, r2: seq<Timed>)
    requires Fresh(a, c) && !NeedsJobApproval(c) && c.lifecycle.validUntil != ZERO_TIME
    requires EditFree(r1) && EditFree(r2)
    requires forall i :: 0 <= i < |c.dataProviders| ==>
      var id := PartyProviderId(c.dataProviders[i]);
      LastExpiry(Run(State(a, c, []), r1).log, id) == LastExpiry(Run(State(a, c, []), r2).log, id)
    ensures Run(State(a, c, []), r1).contract.lifecycle == Run(State(a, c, []), r2).contract.lifecycle
  {
    var s, t := Run(State(a, c, []), r1), Run(State(a, c, []), r2);
    RunsKeepValidity(a, c, r1);
    RunsKeepValidity(a, c, r2);
    EveryRunKeepsInv(a, c, r1);
    EveryRunKeepsInv(a, c, r2);
    forall i | 0 <= i < |c.dataProviders|
      ensures PartyProviderId(s.contract.dataProviders[i]) == PartyProviderId(t.contract.dataProviders[i])
      ensures ExpiryOf(s.contract.dataProviders[i]) == ExpiryOf(t.contract.dataProviders[i])
    {
      assert PartyAgrees(s, s.contract.dataProviders[i]) && PartyAgrees(t, t.contract.dataProviders[i]);
    }
    SameExpiriesSameEarliest(s.contract.dataProviders, t.contract.dataProviders, c.lifecycle.validUntil);
  }

  /**
   * The gate's expiry loop asks the same question as "is now within ValidUntil" exactly
   * when some expiry was set or the original end has not passed: with no expiry set the
   * gate does not look at the contract's own end.
   */
  lemma {:induction false} ExpiryLoopIsValidUntil(a: Authority, c: Contract, reqs: seq<Timed>, now: Time)
    requires Fresh(a, c) && c.lifecycle.validUntil != ZERO_TIME && EditFree(reqs)
    ensures var d := Run(State(a, c, []), reqs).contract;
      (ConsentCurrent(d, now) <==> now <= d.lifecycle.validUntil) <==>
      (HasExpiry(d.dataProviders) || now <= c.lifecycle.validUntil)
  {
    hide EarliestConsentExpiry, PartyProviderId, Fresh, Run;
    var d := Run(State(a, c, []), reqs).contract;
    RunsKeepValidity(a, c, reqs);
    RunningMinimum(d.dataProviders, c.lifecycle.validUntil);
    var ps := d.dataProviders;
    if HasExpiry(ps) {
      var i :| 0 <= i < |ps| && ExpiryOf(ps[i]).Some?;
      assert d.lifecycle.validUntil <= ExpiryOf(ps[i]).value;
      if ConsentCurrent(d, now) {
        assert forall k :: 0 <= k < |ps| && ExpiryOf(ps[k]).Some? ==> now <= ExpiryOf(ps[k]).value;
      }
    }
  }
}
