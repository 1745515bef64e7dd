/** The approval calls as the server runs them (internal/httpapi/job_approval.go). */
module JobServer {
  import opened Wrappers
  import opened Contracts
  import Signing
  import opened JobApproval
  import Coverage
  import ApprovalSteps

  /** The caller's own check of one of their datasets. */
  method CheckDataset(role: string, p: DataProviderParty, caller: Caller, hasRole: bool) returns (e: AuditEntry)
    requires hasRole == HasDataRole(caller, role)
    ensures e == DataResult(role, caller, p)
  {
    e := AuditEntry(Data, "", ApprovalItem(p), false, false, false, []);
    if p.id != "" {
      e := e.(providerId := PartyProviderId(p));
    }
    var reasons := [];
    if hasRole {
      e := e.(hasRole := true);
    } else {
      reasons := reasons + [NoRole];
    }
    var itemId := CatalogueItemId(p);
    if itemId == "" {
      reasons := reasons + [NoCatalogueId];
    } else {
      match LookupItem(caller, itemId) {
        case Missing => reasons := reasons + [NotFoundInCatalogue];
        case Refused => reasons := reasons + [TokenRefused];
        case Failed => reasons := reasons + [LookupFailed];
        case OtherType => reasons := reasons + [NotADataset];
        case DataBank => e := e.(inCatalogue := true);
      }
    }
    if e.hasRole && e.inCatalogue {
      e := e.(accepted := true);
    }
    e := e.(reasons := reasons);
  }

  /** dataProviderApprovals: one entry per dataset, in contract order. */
  method DataProviderApprovals(role: string, ps: seq<DataProviderParty>, caller: Caller, checked: set<AuditKey>)
    returns (entries: seq<AuditEntry>)
    ensures entries == Entries(DataItems(role, caller, ps), checked)
  {
    hide DataResult;
    var hasRole := HasDataRole(caller, role);
    entries := [];
    ghost var items := DataItems(role, caller, ps);
    for i := 0 to |ps|
      invariant entries == Entries(items[..i], checked)
    {
      assert items[..i + 1][..i] == items[..i];
      var p := ps[i];
      assert items[i] == DataItem(role, caller, p);
      if caller.Is(p) {
        var e := CheckDataset(role, p, caller, hasRole);
        entries := entries + [e];
      } else {
        var e := AuditEntry(Data, AuditProvider(p), ApprovalItem(p), false, false, false, []);
        if KeyOf(e) in checked {
          continue;
        }
        e := e.(reasons := [if p.id == "" then NoKnownProvider else AwaitingCall]);
        assert e == AwaitingData(p);
        entries := entries + [e];
      }
    }
    assert items[..|ps|] == items;
  }

  /** The caller's own check of one of their infras, with their catalogue (None: it could not be listed). */
  method CheckInfra(o: InfraOwner, caller: Caller, catalogues: Catalogues, found: Option<seq<CatalogueItem>>)
    returns (e: AuditEntry)
    requires found == if o.providerId in catalogues then Some(catalogues[o.providerId]) else None
    ensures e == InfraResult(catalogues, caller, o)
  {
    e := AuditEntry(Infra, o.providerId, o.infraId, false, false, false, []);
    var reasons := [];
    if INFRA_ROLE in caller.roles {
      e := e.(hasRole := true);
    } else {
      reasons := reasons + [NoRole];
    }
    if found.None? {
      reasons := reasons + [LookupFailed];
    } else if CatalogueHas(found.value, o.infraId) {
      e := e.(inCatalogue := true);
    } else {
      reasons := reasons + [NotFoundInCatalogue];
    }
    if e.hasRole && e.inCatalogue {
      e := e.(accepted := true);
    }
    e := e.(reasons := reasons);
  }

  /** infraProviderApprovals: each owner's catalogue is listed once and remembered. */
  method InfraProviderApprovals(owners: seq<InfraOwner>, caller: Caller, catalogues: Catalogues, checked: set<AuditKey>)
    returns (entries: seq<AuditEntry>)
    ensures entries == Entries(InfraItems(catalogues, caller, owners), checked)
  {
    hide InfraResult;
    var listed: map<string, Option<seq<CatalogueItem>>> := map[];
    entries := [];
    ghost var items := InfraItems(catalogues, caller, owners);
    for i := 0 to |owners|
      invariant entries == Entries(items[..i], checked)
      invariant forall id <- listed ::
        listed[id] == if id in catalogues then Some(catalogues[id]) else None
    {
      assert items[..i + 1][..i] == items[..i];
      var o := owners[i];
      assert items[i] == InfraItem(catalogues, caller, o);
      if caller.Owns(o.providerId) {
        if o.providerId !in listed {
          listed := listed[o.providerId :=
            if o.providerId in catalogues then Some(catalogues[o.providerId]) else None];
        }
        var e := CheckInfra(o, caller, catalogues, listed[o.providerId]);
        entries := entries + [e];
      } else {
        var e := AuditEntry(Infra, o.providerId, o.infraId, false, false, false, []);
        if KeyOf(e) in checked {
          continue;
        }
        e := e.(reasons := [if o.known then AwaitingCall else NoKnownProvider]);
        assert e == AwaitingInfra(o);
        entries := entries + [e];
      }
    }
    assert items[..|owners|] == items;
  }

  /** loadJobApprovalState: the latest entry per key, kept in first-seen order. */
  method LoadJobApprovalState(history: seq<AuditEntry>, infraRequired: bool) returns (st: ApprovalState)
    ensures st == LoadState(history, infraRequired)
  {
    var latest: map<AuditKey, AuditEntry> := map[];
    var order: seq<AuditKey> := [];
    for i := 0 to |history|
      invariant order == FirstSeen(history[..i])
      invariant forall k: AuditKey :: Last(history[..i], k) == if k in latest then Some(latest[k]) else None
      invariant forall k <- order :: k in latest
    {
      assert history[..i + 1][..i] == history[..i];
      var e := history[i];
      var key := KeyOf(e);
      SeenIffLast(history[..i], key);
      if key !in latest {
        order := order + [key];
      }
      latest := latest[key := e];
    }
    assert history[..|history|] == history;
    var current: seq<AuditEntry> := [];
    var data: seq<AuditEntry> := [];
    var infra: seq<AuditEntry> := [];
    for i := 0 to |order|
      invariant current == Current(history)[..i]
      invariant data == OfKind(Current(history)[..i], Data) && infra == OfKind(Current(history)[..i], Infra)
    {
      var e := latest[order[i]];
      assert Current(history)[..i + 1][..i] == Current(history)[..i];
      current := current + [e];
      if e.kind == Data {
        data := data + [e];
      } else {
        infra := infra + [e];
      }
    }
    assert Current(history)[..|order|] == Current(history);
    st := ApprovalState(OverallStatus(data), OverallStatus(infra), current, infraRequired);
  }

  /** infraOwners: one owner per infra that has an id. */
  method ResolveOwners(ips: seq<InfraProviderParty>, policies: map<string, string>) returns (owners: seq<InfraOwner>)
    ensures owners == InfraOwners(ips, policies)
  {
    owners := [];
    for i := 0 to |ips|
      invariant owners == InfraOwners(ips[..i], policies)
    {
      assert ips[..i + 1][..i] == ips[..i];
      if ips[i].id == "" {
        continue;
      }
      var o := InfraOwner(ips[i].id, "", false);
      if ips[i].id in policies {
        o := o.(providerId := policies[ips[i].id]);
        o := o.(known := o.providerId != "");
      }
      owners := owners + [o];
    }
    assert ips[..|ips|] == ips;
  }

  class JobStore {
    const env: JobEnv
    var contract: Contract
    var audit: seq<AuditEntry>

    constructor (env: JobEnv, contract: Contract)
      ensures this.env == env && this.contract == contract && audit == []
    {
      this.env, this.contract, this.audit := env, contract, [];
    }

    function State(): JobState
      reads this
    {
      JobState(contract, audit)
    }

    /** checkedItems: the key of every current entry of kind. */
    method CheckedItems(kind: Kind) returns (checked: set<AuditKey>)
      ensures checked == CheckedKeys(audit, kind)
    {
      var st := LoadJobApprovalState(audit, env.authority.requireInfra);
      checked := {};
      for i := 0 to |st.current|
        invariant checked == set k | 0 <= k < i && st.current[k].kind == kind :: KeyOf(st.current[k])
      {
        if st.current[i].kind == kind {
          checked := checked + {KeyOf(st.current[i])};
        }
      }
    }

    /** The entries among es whose key is one of the caller's. */
    method OwnAmong(es: seq<AuditEntry>, keys: set<AuditKey>) returns (own: seq<AuditEntry>)
      ensures own == Filter(es, keys)
    {
      own := [];
      for i := 0 to |es|
        invariant own == Filter(es[..i], keys)
      {
        assert es[..i + 1][..i] == es[..i];
        if KeyOf(es[i]) in keys {
          own := own + [es[i]];
        }
      }
      assert es[..|es|] == es;
    }

    method SignDatasets(own: seq<AuditEntry>, sig: Signature)
      modifies this`contract
      ensures contract == old(contract).(dataProviders := SignData(old(contract).dataProviders, own, sig))
      ensures forall i :: 0 <= i < |contract.dataProviders| ==>
        var p := old(contract).dataProviders[i];
        contract.dataProviders[i] ==
          if p.id != "" && exists e <- own :: e.accepted && KeyOf(e) == (Data, PartyProviderId(p), ApprovalItem(p))
          then p.(signature := sig) else p
    {
      var before := contract.dataProviders;
      var accepted := AcceptedKeys(own);
      var ps := before;
      for i := 0 to |ps|
        invariant |ps| == |before|
        invariant forall k :: i <= k < |ps| ==> ps[k] == before[k]
        invariant forall k :: 0 <= k < i ==> ps[k] == SignData(before, own, sig)[k]
      {
        if ps[i].id != "" && (Data, PartyProviderId(ps[i]), ApprovalItem(ps[i])) in accepted {
          ps := ps[i := ps[i].(signature := sig)];
        }
      }
      contract := contract.(dataProviders := ps);
    }

    method SignInfras(own: seq<AuditEntry>, sig: Signature)
      modifies this`contract
      ensures contract == old(contract).(infraProviders := SignInfra(old(contract).infraProviders, own, sig))
    {
      var before := contract.infraProviders;
      var accepted := AcceptedKeys(own);
      var ips := before;
      for i := 0 to |ips|
        invariant |ips| == |before|
        invariant forall k :: i <= k < |ips| ==> ips[k] == before[k]
        invariant forall k :: 0 <= k < i ==> ips[k] == SignInfra(before, own, sig)[k]
      {
        var found := false;
        for j := 0 to |own|
          invariant found <==>
            (before[i].id != "" &&
             exists k :: 0 <= k < j && own[k].item == before[i].id && KeyOf(own[k]) in accepted)
        {
          if ips[i].id != "" && ips[i].id == own[j].item && KeyOf(own[j]) in accepted {
            found := true;
          }
        }
        assert found <==> AcceptsInfra(own, before[i].id);
        if found {
          ips := ips[i := ips[i].(signature := sig)];
        }
      }
      contract := contract.(infraProviders := ips);
    }

    /** Whether any dataset is the caller's, and the keys of theirs. */
    method OwnDatasets(caller: Caller) returns (any: bool, keys: set<AuditKey>)
      ensures any == OwnsAny(DataItems(env.role, caller, contract.dataProviders))
      ensures keys == OwnKeys(DataItems(env.role, caller, contract.dataProviders))
    {
      hide PartyProviderId, ApprovalItem, DataResult, Caller.Is;
      any, keys := false, {};
      var ps := contract.dataProviders;
      ghost var items := DataItems(env.role, caller, ps);
      for i := 0 to |ps|
        invariant any == exists k :: 0 <= k < i && items[k].own
        invariant keys == set k | 0 <= k < i && items[k].own :: ItemKey(items[k])
      {
        if caller.Is(ps[i]) {
          any, keys := true, keys + {(Data, PartyProviderId(ps[i]), ApprovalItem(ps[i]))};
          OwnKey(env.role, caller, ps[i]);
          assert ItemKey(items[i]) == (Data, PartyProviderId(ps[i]), ApprovalItem(ps[i]));
        }
      }
    }

    /** What the caller's own entries sign, and the audit rows the call leaves. */
    method RecordApproval(call: Call, entries: seq<AuditEntry>, own: seq<AuditEntry>,
                          now: Time) returns (standing: Standing)
      modifies this`contract, this`audit
      ensures audit == old(audit) + entries && standing == OverallStatus(own)
      ensures var sig := ApprovalSignature(call.caller.Username(), call.hash, call.value, now);
        contract == if call.DataCall?
                    then old(contract).(dataProviders := SignData(old(contract).dataProviders, own, sig))
                    else old(contract).(infraProviders := SignInfra(old(contract).infraProviders, own, sig))
    {
      var sig := ApprovalSignature(call.caller.Username(), call.hash, call.value, now);
      if call.DataCall? {
        SignDatasets(own, sig);
      } else {
        SignInfras(own, sig);
      }
      audit := audit + entries;
      standing := OverallStatus(own);
    }

    /** POST /job/approval/data-provider. */
    method HandleDataProviderApproval(call: Call, now: Time) returns (reply: CallReply)
      requires call.DataCall?
      modifies this`contract, this`audit
      ensures (State(), reply) == Approve(env, old(State()), call, now)
      ensures reply.Recorded? <==> ApprovalSteps.Recordable(env, old(State()), call)
      ensures reply.Recorded? ==> ApprovalSteps.SignsExactly(env, old(contract), call, now, contract)
    {
      hide SubmittedSignatureOk, DataItems, SignData, CheckedKeys, Signing.NeedsJobApproval;
      hide ApprovalSteps.Recordable, ApprovalSteps.SignsExactly;
      ApprovalSteps.CallSignsExactly(env, State(), call, now);
      if !Signing.NeedsJobApproval(contract) {
        return NotRecorded("NO_APPROVAL_NEEDED");
      }
      var caller := call.caller;
      var any, keys := OwnDatasets(caller);
      if !any {
        return NotRecorded("NOT_A_DATA_PROVIDER_ON_CONTRACT");
      }
      var checked := CheckedItems(Data);
      var entries := DataProviderApprovals(env.role, contract.dataProviders, caller, checked);
      if call.hash == NoHash || call.value == NoValue {
        return NotRecorded("MISSING_FIELDS");
      }
      var own := OwnAmong(entries, keys);
      if OverallStatus(own) == Approved
         && !SubmittedSignatureOk(env.authority, contract, caller.Username(), call.hash, call.value) {
        return NotRecorded("INVALID_SIGNATURE");
      }
      var standing := RecordApproval(call, entries, own, now);
      reply := Recorded(standing);
    }

    /** POST /job/approval/infra-provider: own entries are picked by their owner. */
    method HandleInfraProviderApproval(call: Call, now: Time) returns (reply: CallReply)
      requires call.InfraCall?
      modifies this`contract, this`audit
      ensures (State(), reply) == Approve(env, old(State()), call, now)
      ensures reply.Recorded? <==> ApprovalSteps.Recordable(env, old(State()), call)
      ensures reply.Recorded? ==> ApprovalSteps.SignsExactly(env, old(contract), call, now, contract)
    {
      hide InfraOwners, InfraItems, SignInfra, CheckedKeys, Signing.NeedsJobApproval;
      hide ApprovalSteps.Recordable, ApprovalSteps.SignsExactly;
      ApprovalSteps.CallSignsExactly(env, State(), call, now);
      if !Signing.NeedsJobApproval(contract) {
        return NotRecorded("NO_APPROVAL_NEEDED");
      }
      var caller := call.caller;
      var owners := ResolveOwners(contract.infraProviders, env.policies);
      var any := OwnsSome(owners, caller, env.catalogues);
      if !any {
        return NotRecorded("NOT_AN_INFRA_PROVIDER_ON_CONTRACT");
      }
      var checked := CheckedItems(Infra);
      if call.hash == NoHash || call.value == NoValue {
        return NotRecorded("MISSING_FIELDS");
      }
      var entries := InfraProviderApprovals(owners, caller, env.catalogues, checked);
      var own := OwnedBy(entries, caller, OwnKeys(InfraItems(env.catalogues, caller, owners))) by {
        OwnersPick(env.catalogues, caller, owners, checked);
      }
      var standing := RecordApproval(call, entries, own, now);
      reply := Recorded(standing);
    }

    method HandleApproval(call: Call, now: Time) returns (reply: CallReply)
      modifies this`contract, this`audit
      ensures (State(), reply) == Approve(env, old(State()), call, now)
      ensures reply.Recorded? <==> ApprovalSteps.Recordable(env, old(State()), call)
      ensures reply.Recorded? ==>
        reply.standing == if ApprovalSteps.AllAccepts(env, old(State()), call) then Approved else Rejected
      ensures reply.Recorded? ==> ApprovalSteps.SignsExactly(env, old(contract), call, now, contract)
      ensures !reply.Recorded? ==> State() == old(State())
    {
      hide ApprovalSteps.Recordable, ApprovalSteps.AllAccepts, ApprovalSteps.SignsExactly, Approve;
      ApprovalSteps.RecordedExactly(env, State(), call, now);
      if call.DataCall? {
        reply := HandleDataProviderApproval(call, now);
      } else {
        reply := HandleInfraProviderApproval(call, now);
      }
    }
  }

  lemma OwnKey(role: string, caller: Caller, p: DataProviderParty)
    requires caller.Is(p)
    ensures ItemKey(DataItem(role, caller, p)) == (Data, PartyProviderId(p), ApprovalItem(p))
  {
    hide PartyProviderId, ApprovalItem;
  }

  /** Whether the caller owns any of the job's infras. */
  method OwnsSome(owners: seq<InfraOwner>, caller: Caller, catalogues: Catalogues) returns (any: bool)
    ensures any == OwnsAny(InfraItems(catalogues, caller, owners))
  {
    hide Caller.Owns;
    any := false;
    ghost var items := InfraItems(catalogues, caller, owners);
    for i := 0 to |owners|
      invariant any == exists k :: 0 <= k < i && items[k].own
    {
      assert items[i].own == caller.Owns(owners[i].providerId);
      if caller.Owns(owners[i].providerId) {
        any := true;
      }
    }
  }

  /** The entries about infras of the caller's. */
  method OwnedBy(es: seq<AuditEntry>, caller: Caller, ghost keys: set<AuditKey>) returns (own: seq<AuditEntry>)
    requires forall e <- es :: KeyOf(e) in keys <==> caller.Owns(e.providerId)
    ensures own == Filter(es, keys)
  {
    hide Caller.Owns;
    own := [];
    for i := 0 to |es|
      invariant own == Filter(es[..i], keys)
    {
      assert es[..i + 1][..i] == es[..i];
      assert es[i] in es;
      if caller.Owns(es[i].providerId) {
        own := own + [es[i]];
      }
    }
    assert es[..|es|] == es;
  }

  /** An infra entry is about a key of the caller's exactly when they own its provider_id. */
  lemma OwnersPick(catalogues: Catalogues, caller: Caller, owners: seq<InfraOwner>, checked: set<AuditKey>)
    ensures var items := InfraItems(catalogues, caller, owners);
      forall e <- Entries(items, checked) :: KeyOf(e) in OwnKeys(items) <==> caller.Owns(e.providerId)
  {
    hide Caller.Owns;
    var items := InfraItems(catalogues, caller, owners);
    forall e | e in Entries(items, checked) ensures KeyOf(e) in OwnKeys(items) <==> caller.Owns(e.providerId) {
      Coverage.EntriesFrom(items, checked, e);
      var it :| it in items && if it.own then e == it.result else e == it.awaiting;
      var i :| 0 <= i < |items| && items[i] == it;
      assert KeyOf(e) == ItemKey(it) && it.own == caller.Owns(e.providerId);
      if KeyOf(e) in OwnKeys(items) {
        var k :| 0 <= k < |items| && items[k].own && ItemKey(items[k]) == KeyOf(e);
        assert caller.Owns(owners[k].providerId);
      }
    }
  }
}
