/**
 * What one approval call records, field by field: whose items it checks, exactly when it is refused
 * and what it answers, whose datasets and infras it signs; and, over whole runs, whose signature a
 * dataset or an infra carries.
 */
module ApprovalSteps {
  import opened Wrappers
  import opened Text
  import opened Contracts
  import Signing
  import opened Verification
  import opened JobApproval
  import opened ApprovalRuns

  // ---- one own item accepted

  /** name is a provider_id, username, e-mail or sub of the caller's. */
  predicate GoesBy(caller: Caller, name: string) {
    || (exists login <- [caller.preferredUsername, caller.email] ::
          login != "" && (name == ProviderIdForUsername(login) || name == Lower(login)))
    || (caller.sub != "" && name == Lower(caller.sub))
  }

  lemma NamesExactly(caller: Caller, name: string)
    ensures name in caller.Names() <==> GoesBy(caller, name)
  {
    hide ProviderIdForUsername, Lower;
    var logins := [caller.preferredUsername, caller.email];
    assert logins[0] == caller.preferredUsername && logins[1] == caller.email;
  }

  /** p is the caller's: its provider_id or its id names them. */
  predicate Theirs(caller: Caller, p: DataProviderParty) {
    p.id != "" && (GoesBy(caller, PartyProviderId(p)) || GoesBy(caller, Lower(p.id)))
  }

  /** The caller may provide data: by name of the role, or by the one configured. */
  predicate ProvidesData(env: JobEnv, caller: Caller) {
    exists role <- caller.roles :: role == "data-provider" || role == "provider" || role == env.role
  }

  /** The catalogue shows the caller the dataset as a data bank. */
  predicate ListedDataset(caller: Caller, p: DataProviderParty) {
    && CatalogueItemId(p) != ""
    && CatalogueItemId(p) in caller.catalogue && caller.catalogue[CatalogueItemId(p)] == DataBank
  }

  /** A dataset of the caller's that the call accepts. */
  ghost predicate AcceptedDataset(env: JobEnv, caller: Caller, p: DataProviderParty) {
    Theirs(caller, p) && ProvidesData(env, caller) && ListedDataset(caller, p)
  }

  /** The infra's policy names the caller as its owner. */
  predicate TheirInfra(env: JobEnv, caller: Caller, id: string) {
    && id != "" && id in env.policies && env.policies[id] != ""
    && (GoesBy(caller, env.policies[id]) || GoesBy(caller, Lower(env.policies[id])))
  }

  /** The owner's own catalogue lists the infra, by id or by name. */
  ghost predicate ListedInfra(env: JobEnv, owner: string, id: string) {
    owner in env.catalogues && exists item <- env.catalogues[owner] :: item.itemId == id || EqualFold(item.name, id)
  }

  /** An infra of the caller's that the call accepts. */
  ghost predicate AcceptedInfra(env: JobEnv, caller: Caller, id: string) {
    TheirInfra(env, caller, id) && "infra-provider" in caller.roles && ListedInfra(env, env.policies[id], id)
  }

  /** What a call checks of a dataset: whose it is, their role and the catalogue, each on its own. */
  lemma DatasetItem(env: JobEnv, caller: Caller, p: DataProviderParty)
    ensures var it := DataItem(env.role, caller, p);
      && (it.own <==> Theirs(caller, p))
      && (it.result.hasRole <==> ProvidesData(env, caller))
      && (it.result.inCatalogue <==> ListedDataset(caller, p))
      && (it.result.reasons == [] <==> it.result.accepted)
      && (it.own && it.result.accepted <==> AcceptedDataset(env, caller, p))
      && ItemKey(it) == DataKey(p) && !it.awaiting.accepted
  {
    hide PartyProviderId, ApprovalItem, CatalogueItemId, Lower, GoesBy, Caller.Names;
    NamesExactly(caller, PartyProviderId(p));
    NamesExactly(caller, Lower(p.id));
  }

  /** The same of an infra, its owner read off its policy. */
  lemma InfraOwnerItem(env: JobEnv, caller: Caller, id: string)
    requires id != ""
    ensures var it := InfraItem(env.catalogues, caller, OwnerFrom(env.policies, id));
      && (it.own <==> TheirInfra(env, caller, id))
      && (it.result.hasRole <==> "infra-provider" in caller.roles)
      && (it.result.inCatalogue <==> ListedInfra(env, it.result.providerId, id))
      && (it.result.reasons == [] <==> it.result.accepted)
      && (it.own && it.result.accepted <==> AcceptedInfra(env, caller, id))
      && it.result.item == id == it.awaiting.item && !it.awaiting.accepted
  {
    hide Lower, GoesBy, Caller.Names, CatalogueHas;
    var o := OwnerFrom(env.policies, id);
    NamesExactly(caller, o.providerId);
    NamesExactly(caller, Lower(o.providerId));
    if o.providerId in env.catalogues {
      CatalogueExactly(env.catalogues[o.providerId], id);
    }
  }

  lemma CatalogueExactly(items: seq<CatalogueItem>, id: string)
    ensures CatalogueHas(items, id) <==> exists item <- items :: item.itemId == id || EqualFold(item.name, id)
  {
    hide EqualFold;
    if CatalogueHas(items, id) {
      var i :| 0 <= i < |items| && (items[i].itemId == id || EqualFold(items[i].name, id));
      assert items[i] in items;
    }
  }

  // ---- the caller's entries

  lemma {:induction false} EntriesExactly(items: seq<Item>, checked: set<AuditKey>, e: AuditEntry)
    ensures e in Entries(items, checked) <==>
      exists it <- items :: if it.own then e == it.result else ItemKey(it) !in checked && e == it.awaiting
  {
    if items != [] {
      var n := |items| - 1;
      EntriesExactly(items[..n], checked, e);
      assert items == items[..n] + [items[n]];
    }
  }

  lemma {:induction false} FilterExactly(es: seq<AuditEntry>, keep: set<AuditKey>, e: AuditEntry)
    ensures e in Filter(es, keep) <==> e in es && KeyOf(e) in keep
  {
    if es != [] {
      FilterExactly(es[..|es| - 1], keep, e);
      assert es == es[..|es| - 1] + [es[|es| - 1]];
    }
  }

  /** No other provider's item shares an audit key with one of the caller's, unless that key was checked before. */
  ghost predicate NobodyElsesPending(items: seq<Item>, log: seq<AuditEntry>) {
    forall x <- items, y <- items :: x.own && !y.own && ItemKey(y) == ItemKey(x) ==>
      exists e <- log :: KeyOf(e) == ItemKey(y)
  }

  ghost predicate OwnAccepted(items: seq<Item>) {
    forall it <- items :: it.own ==> it.result.accepted
  }

  lemma {:induction false} LastIffLogged(log: seq<AuditEntry>, key: AuditKey)
    ensures Last(log, key).Some? <==> exists e <- log :: KeyOf(e) == key
  {
    if log != [] {
      LastIffLogged(log[..|log| - 1], key);
      assert log == log[..|log| - 1] + [log[|log| - 1]];
    }
  }

  predicate OwnedKey(items: seq<Item>, key: AuditKey) {
    exists it <- items :: it.own && ItemKey(it) == key
  }

  /** e is the caller's own result, or was written for somebody else's unchecked item under a key of theirs. */
  ghost predicate OwnEntry(items: seq<Item>, log: seq<AuditEntry>, e: AuditEntry) {
    exists it <- items ::
      if it.own then e == it.result
      else e == it.awaiting && OwnedKey(items, ItemKey(it)) && !exists x <- log :: KeyOf(x) == ItemKey(it)
  }

  lemma OwnKeysExactly(items: seq<Item>, key: AuditKey)
    ensures key in OwnKeys(items) <==> OwnedKey(items, key)
  {
    if key in OwnKeys(items) {
      var i :| 0 <= i < |items| && items[i].own && ItemKey(items[i]) == key;
      assert items[i] in items;
    }
    if it :| it in items && it.own && ItemKey(it) == key {
      var i :| 0 <= i < |items| && items[i] == it;
      assert items[i].own && ItemKey(items[i]) == key;
    }
  }

  lemma OwnEntriesExactly(env: JobEnv, s: JobState, call: Call, e: AuditEntry)
    ensures e in OwnEntries(env, s, call) <==> OwnEntry(ItemsOf(env, s.contract, call), s.log, e)
  {
    hide ItemsOf, CheckedKeys, OwnKeys, Entries, Filter;
    var items, checked := ItemsOf(env, s.contract, call), CheckedKeys(s.log, KindOf(call));
    ItemsCoherent(env, s.contract, call);
    EntriesExactly(items, checked, e);
    FilterExactly(Entries(items, checked), OwnKeys(items), e);
    OwnKeysExactly(items, KeyOf(e));
    forall it | it in items
      ensures KeyOf(it.result) == ItemKey(it) == KeyOf(it.awaiting)
      ensures ItemKey(it) in checked <==> exists x <- s.log :: KeyOf(x) == ItemKey(it)
    {
      var i :| 0 <= i < |items| && items[i] == it;
      CheckedIffLast(s.log, KindOf(call), ItemKey(it));
      LastIffLogged(s.log, ItemKey(it));
    }
  }

  /** The caller's standing is approved exactly when all their items are accepted and nobody else's is pending. */
  lemma {:induction false} StandingExactly(env: JobEnv, s: JobState, call: Call)
    requires OwnsAny(ItemsOf(env, s.contract, call))
    requires forall it <- ItemsOf(env, s.contract, call) :: !it.awaiting.accepted
    ensures var items := ItemsOf(env, s.contract, call);
      OverallStatus(OwnEntries(env, s, call)) ==
        if OwnAccepted(items) && NobodyElsesPending(items, s.log) then Approved else Rejected
  {
    hide ItemsOf, OwnEntries;
    var items, own := ItemsOf(env, s.contract, call), OwnEntries(env, s, call);
    forall e: AuditEntry ensures e in own <==> OwnEntry(items, s.log, e) {
      OwnEntriesExactly(env, s, call, e);
    }
    var i :| 0 <= i < |items| && items[i].own;
    assert OwnEntry(items, s.log, items[i].result) by { assert items[i] in items; }
    if OwnAccepted(items) && NobodyElsesPending(items, s.log) {
      forall k | 0 <= k < |own| ensures own[k].accepted {
        assert own[k] in own;
      }
    } else if !OwnAccepted(items) {
      var it :| it in items && it.own && !it.result.accepted;
      assert OwnEntry(items, s.log, it.result);
    } else {
      var x, y :| x in items && y in items && x.own && !y.own && ItemKey(y) == ItemKey(x)
        && !exists e <- s.log :: KeyOf(e) == ItemKey(y);
      assert OwnEntry(items, s.log, y.awaiting);
    }
  }

  /** The keys a call signs are those of the caller's accepted items. */
  lemma SignedKeysExactly(env: JobEnv, s: JobState, call: Call, key: AuditKey)
    requires forall it <- ItemsOf(env, s.contract, call) :: !it.awaiting.accepted
    ensures key in AcceptedKeys(OwnEntries(env, s, call)) <==>
      exists it <- ItemsOf(env, s.contract, call) :: it.own && it.result.accepted && ItemKey(it) == key
  {
    hide ItemsOf, OwnEntries;
    var items, own := ItemsOf(env, s.contract, call), OwnEntries(env, s, call);
    ItemsCoherent(env, s.contract, call);
    forall it | it in items ensures KeyOf(it.result) == ItemKey(it) {
      var i :| 0 <= i < |items| && items[i] == it;
    }
    if key in AcceptedKeys(own) {
      var e :| e in own && e.accepted && KeyOf(e) == key;
      OwnEntriesExactly(env, s, call, e);
    }
    if it :| it in items && it.own && it.result.accepted && ItemKey(it) == key {
      OwnEntriesExactly(env, s, call, it.result);
    }
  }

  // ---- the items of a contract

  /** Every dataset is an item of a data call, and there are no others. */
  lemma DatasetsAreItems(env: JobEnv, c: Contract, call: Call, it: Item)
    requires call.DataCall?
    ensures it in ItemsOf(env, c, call) <==>
      exists p <- c.dataProviders :: it == DataItem(env.role, call.caller, p)
  {
    hide DataItem;
    var items := ItemsOf(env, c, call);
    if it in items {
      var i :| 0 <= i < |items| && items[i] == it;
      assert c.dataProviders[i] in c.dataProviders;
    }
    if p :| p in c.dataProviders && it == DataItem(env.role, call.caller, p) {
      var i :| 0 <= i < |c.dataProviders| && c.dataProviders[i] == p;
      assert items[i] == it;
    }
  }

  lemma {:induction false} OwnersExactly(ips: seq<InfraProviderParty>, policies: map<string, string>, o: InfraOwner)
    ensures o in InfraOwners(ips, policies) <==>
      exists ip <- ips :: ip.id != "" && o == OwnerFrom(policies, ip.id)
  {
    hide OwnerFrom;
    if ips != [] {
      OwnersExactly(ips[..|ips| - 1], policies, o);
      assert ips == ips[..|ips| - 1] + [ips[|ips| - 1]];
    }
  }

  /** Every infra with an id is an item of an infra call, as its policy's owner has it, and there are no others. */
  lemma InfrasAreItems(env: JobEnv, c: Contract, call: Call, it: Item)
    requires call.InfraCall?
    ensures it in ItemsOf(env, c, call) <==>
      exists ip <- c.infraProviders ::
        ip.id != "" && it == InfraItem(env.catalogues, call.caller, OwnerFrom(env.policies, ip.id))
  {
    hide InfraItem, InfraOwners, OwnerFrom;
    var owners, items := InfraOwners(c.infraProviders, env.policies), ItemsOf(env, c, call);
    if it in items {
      var i :| 0 <= i < |items| && items[i] == it;
      OwnersExactly(c.infraProviders, env.policies, owners[i]);
      assert owners[i] in owners;
    }
    if exists ip <- c.infraProviders ::
        ip.id != "" && it == InfraItem(env.catalogues, call.caller, OwnerFrom(env.policies, ip.id))
    {
      var ip :| ip in c.infraProviders && ip.id != ""
        && it == InfraItem(env.catalogues, call.caller, OwnerFrom(env.policies, ip.id));
      OwnersExactly(c.infraProviders, env.policies, OwnerFrom(env.policies, ip.id));
      var i :| 0 <= i < |owners| && owners[i] == OwnerFrom(env.policies, ip.id);
      assert items[i] == it;
    }
  }

  /** The caller has an item of the call's kind on the contract. */
  ghost predicate HasItems(env: JobEnv, c: Contract, call: Call) {
    match call
    case DataCall(caller, _, _) => exists p <- c.dataProviders :: Theirs(caller, p)
    case InfraCall(caller, _, _) => exists ip <- c.infraProviders :: TheirInfra(env, caller, ip.id)
  }

  /** All the caller's items of the kind are accepted, and none is held back by somebody else's pending one. */
  ghost predicate AllAccepts(env: JobEnv, s: JobState, call: Call) {
    match call
    case DataCall(caller, _, _) =>
      && (forall p <- s.contract.dataProviders :: Theirs(caller, p) ==> AcceptedDataset(env, caller, p))
      && (forall p <- s.contract.dataProviders, q <- s.contract.dataProviders ::
            Theirs(caller, p) && !Theirs(caller, q) && DataKey(q) == DataKey(p) ==>
            exists e <- s.log :: KeyOf(e) == DataKey(q))
    case InfraCall(caller, _, _) =>
      forall ip <- s.contract.infraProviders :: TheirInfra(env, caller, ip.id) ==> AcceptedInfra(env, caller, ip.id)
  }

  lemma DataItemsMean(env: JobEnv, s: JobState, call: Call)
    requires call.DataCall?
    ensures var items := ItemsOf(env, s.contract, call);
      && (OwnsAny(items) <==> HasItems(env, s.contract, call))
      && (OwnAccepted(items) && NobodyElsesPending(items, s.log) <==> AllAccepts(env, s, call))
      && (forall it <- items :: !it.awaiting.accepted)
  {
    hide DataItem, DataKey, ItemsOf, Theirs, AcceptedDataset;
    var items, ps, caller := ItemsOf(env, s.contract, call), s.contract.dataProviders, call.caller;
    forall p | p in ps
      ensures var it := DataItem(env.role, caller, p);
        && it in items && (it.own <==> Theirs(caller, p))
        && (it.own && it.result.accepted <==> AcceptedDataset(env, caller, p)) && ItemKey(it) == DataKey(p)
    {
      DatasetsAreItems(env, s.contract, call, DataItem(env.role, caller, p));
      DatasetItem(env, caller, p);
    }
    forall it | it in items
      ensures !it.awaiting.accepted && exists p <- ps :: it == DataItem(env.role, caller, p)
    {
      DatasetsAreItems(env, s.contract, call, it);
      var p :| p in ps && it == DataItem(env.role, caller, p);
      DatasetItem(env, caller, p);
    }
    if OwnsAny(items) {
      var i :| 0 <= i < |items| && items[i].own;
      assert items[i] in items;
    }
    if p :| p in ps && Theirs(caller, p) {
      var i :| 0 <= i < |items| && items[i] == DataItem(env.role, caller, p);
      assert items[i].own;
    }
  }

  lemma InfraItemsMean(env: JobEnv, s: JobState, call: Call)
    requires call.InfraCall?
    ensures var items := ItemsOf(env, s.contract, call);
      && (OwnsAny(items) <==> HasItems(env, s.contract, call))
      && (OwnAccepted(items) && NobodyElsesPending(items, s.log) <==> AllAccepts(env, s, call))
      && (forall it <- items :: !it.awaiting.accepted)
  {
    hide InfraItem, OwnerFrom, ItemsOf, AcceptedInfra, TheirInfra;
    var items, ips, caller := ItemsOf(env, s.contract, call), s.contract.infraProviders, call.caller;
    forall ip | ip in ips && ip.id != ""
      ensures var it := InfraItem(env.catalogues, caller, OwnerFrom(env.policies, ip.id));
        && it in items && (it.own <==> TheirInfra(env, caller, ip.id))
        && (it.own && it.result.accepted <==> AcceptedInfra(env, caller, ip.id))
    {
      InfrasAreItems(env, s.contract, call, InfraItem(env.catalogues, caller, OwnerFrom(env.policies, ip.id)));
      InfraOwnerItem(env, caller, ip.id);
    }
    forall it | it in items
      ensures !it.awaiting.accepted
      ensures exists ip <- ips ::
        ip.id != "" && it == InfraItem(env.catalogues, caller, OwnerFrom(env.policies, ip.id))
    {
      InfrasAreItems(env, s.contract, call, it);
      var ip :| ip in ips && ip.id != "" && it == InfraItem(env.catalogues, caller, OwnerFrom(env.policies, ip.id));
      InfraOwnerItem(env, caller, ip.id);
    }
    NothingHeldBack(env, s, call);
    forall ip | ip in ips && TheirInfra(env, caller, ip.id) ensures ip.id != "" {
      TheirsHasId(env, caller, ip.id);
    }
    if OwnsAny(items) {
      var i :| 0 <= i < |items| && items[i].own;
      assert items[i] in items;
    }
    if ip :| ip in ips && TheirInfra(env, caller, ip.id) {
      var i :| 0 <= i < |items| && items[i] == InfraItem(env.catalogues, caller, OwnerFrom(env.policies, ip.id));
      assert items[i].own;
    }
  }

  lemma TheirsHasId(env: JobEnv, caller: Caller, id: string)
    ensures TheirInfra(env, caller, id) ==> id != ""
  {
  }

  /** Infra items under one key have one owner. */
  lemma NothingHeldBack(env: JobEnv, s: JobState, call: Call)
    requires call.InfraCall?
    ensures NobodyElsesPending(ItemsOf(env, s.contract, call), s.log)
  {
    hide InfraOwners, InfraResult;
    var items := ItemsOf(env, s.contract, call);
    forall it | it in items ensures it.own == call.caller.Owns(ItemKey(it).1) {
      var i :| 0 <= i < |items| && items[i] == it;
    }
  }

  lemma ItemsMean(env: JobEnv, s: JobState, call: Call)
    ensures var items := ItemsOf(env, s.contract, call);
      && (OwnsAny(items) <==> HasItems(env, s.contract, call))
      && (OwnAccepted(items) && NobodyElsesPending(items, s.log) <==> AllAccepts(env, s, call))
      && (forall it <- items :: !it.awaiting.accepted)
  {
    if call.DataCall? {
      DataItemsMean(env, s, call);
    } else {
      InfraItemsMean(env, s, call);
    }
  }

  // ---- one call

  /** The name a call is made under. */
  function Login(caller: Caller): string {
    if caller.preferredUsername != "" then caller.preferredUsername else caller.email
  }

  /** The submitted hash is the job's, and the signature over it the caller's. */
  ghost predicate SubmissionHolds(env: JobEnv, c: Contract, call: Call) {
    && (if c.contractHash == NoHash then call.hash == HashContract(c)
        else call.hash == c.contractHash && ContentStands(env.authority, c))
    && SignedAs(env.authority, Login(call.caller), call.hash, call.value)
  }

  /**
   * The caller has items on a job that needs approval and submits a hash and a signature, which
   * must hold for a data call that accepts them all.
   */
  ghost predicate Recordable(env: JobEnv, s: JobState, call: Call) {
    && UnderJobApproval(s.contract) && HasItems(env, s.contract, call)
    && call.hash != NoHash && call.value != NoValue
    && (call.DataCall? && AllAccepts(env, s, call) ==> SubmissionHolds(env, s.contract, call))
  }

  lemma SubmissionExactly(env: JobEnv, c: Contract, call: Call)
    ensures SubmittedSignatureOk(env.authority, c, call.caller.Username(), call.hash, call.value)
      <==> SubmissionHolds(env, c, call)
  {
  }

  /**
   * Main result: exactly which calls are recorded, and what they answer. A refused call changes
   * nothing and says which demand failed; a recorded one is approved exactly when it accepts all
   * the caller's items.
   */
  lemma {:induction false} RecordedExactly(env: JobEnv, s: JobState, call: Call, now: Time)
    ensures var (t, reply) := Approve(env, s, call, now);
      var standing := if AllAccepts(env, s, call) then Approved else Rejected;
      var code := if !UnderJobApproval(s.contract) then "NO_APPROVAL_NEEDED"
                  else if HasItems(env, s.contract, call) then
                    (if call.hash == NoHash || call.value == NoValue then "MISSING_FIELDS" else "INVALID_SIGNATURE")
                  else if call.DataCall? then "NOT_A_DATA_PROVIDER_ON_CONTRACT"
                  else "NOT_AN_INFRA_PROVIDER_ON_CONTRACT";
      && reply == (if Recordable(env, s, call) then Recorded(standing) else NotRecorded(code))
      && (!Recordable(env, s, call) ==> t == s)
  {
    hide ItemsOf, OwnEntries, Signed, HasItems, AllAccepts, SubmissionHolds, SubmittedSignatureOk, OwnsAny;
    hide UnderJobApproval, Signing.NeedsJobApproval, OwnAccepted, NobodyElsesPending;
    NeedsJobApprovalExactly(s.contract);
    ItemsMean(env, s, call);
    SubmissionExactly(env, s.contract, call);
    if OwnsAny(ItemsOf(env, s.contract, call)) {
      StandingExactly(env, s, call);
    }
  }

  /** Some dataset of the caller's under p's audit key is accepted. */
  ghost predicate Approves(env: JobEnv, c: Contract, caller: Caller, p: DataProviderParty) {
    p.id != "" && exists q <- c.dataProviders :: AcceptedDataset(env, caller, q) && DataKey(q) == DataKey(p)
  }

  /** The signature block a call leaves, submitted value and all. */
  function Block(call: Call, now: Time): Signature {
    Signature(Some(now), Login(call.caller), "RSASSA-PKCS1-v1_5-SHA256", call.hash, call.value, None)
  }

  /**
   * Main result: a recorded data call signs exactly the datasets it approves, in the caller's name,
   * and nothing else of the contract changes.
   */
  lemma {:induction false} DataCallSignsExactly(env: JobEnv, s: JobState, call: Call, now: Time)
    requires call.DataCall? && Recordable(env, s, call)
    ensures var c, d := s.contract, Approve(env, s, call, now).0.contract;
      && d == c.(dataProviders := d.dataProviders) && |d.dataProviders| == |c.dataProviders|
      && forall i :: 0 <= i < |c.dataProviders| ==>
           d.dataProviders[i] == if Approves(env, c, call.caller, c.dataProviders[i])
                                 then c.dataProviders[i].(signature := Block(call, now)) else c.dataProviders[i]
  {
    hide ItemsOf, OwnEntries, Recordable, Approves, DataKey, AcceptedKeys, Refusal;
    RecordedExactly(env, s, call, now);
    var c := s.contract;
    forall i | 0 <= i < |c.dataProviders|
      ensures Approves(env, c, call.caller, c.dataProviders[i]) <==>
        c.dataProviders[i].id != "" && DataKey(c.dataProviders[i]) in AcceptedKeys(OwnEntries(env, s, call))
    {
      ApprovesExactly(env, s, call, c.dataProviders[i]);
    }
    forall p: DataProviderParty | p.id != "" ensures DataKey(p) == (Data, PartyProviderId(p), ApprovalItem(p)) {
      KnownKey(p);
    }
  }

  lemma KnownKey(p: DataProviderParty)
    requires p.id != ""
    ensures DataKey(p) == (Data, PartyProviderId(p), ApprovalItem(p))
  {
  }

  lemma ApprovesExactly(env: JobEnv, s: JobState, call: Call, p: DataProviderParty)
    requires call.DataCall?
    ensures Approves(env, s.contract, call.caller, p) <==>
      p.id != "" && DataKey(p) in AcceptedKeys(OwnEntries(env, s, call))
  {
    hide ItemsOf, OwnEntries, DataKey, AcceptedKeys, AcceptedDataset, DataItem;
    DataItemsMean(env, s, call);
    SignedKeysExactly(env, s, call, DataKey(p));
    forall q | q in s.contract.dataProviders
      ensures var it := DataItem(env.role, call.caller, q);
        && it in ItemsOf(env, s.contract, call) && ItemKey(it) == DataKey(q)
        && (it.own && it.result.accepted <==> AcceptedDataset(env, call.caller, q))
    {
      DatasetsAreItems(env, s.contract, call, DataItem(env.role, call.caller, q));
      DatasetItem(env, call.caller, q);
    }
    forall it | it in ItemsOf(env, s.contract, call)
      ensures exists q <- s.contract.dataProviders :: it == DataItem(env.role, call.caller, q)
    {
      DatasetsAreItems(env, s.contract, call, it);
    }
  }

  /** Main result: a recorded infra call signs exactly the caller's accepted infras, and nothing else changes. */
  lemma {:induction false} InfraCallSignsExactly(env: JobEnv, s: JobState, call: Call, now: Time)
    requires call.InfraCall? && Recordable(env, s, call)
    ensures var c, d := s.contract, Approve(env, s, call, now).0.contract;
      && d == c.(infraProviders := d.infraProviders) && |d.infraProviders| == |c.infraProviders|
      && forall i :: 0 <= i < |c.infraProviders| ==>
           d.infraProviders[i] == if AcceptedInfra(env, call.caller, c.infraProviders[i].id)
                                  then c.infraProviders[i].(signature := Block(call, now)) else c.infraProviders[i]
  {
    hide ItemsOf, OwnEntries, Recordable, AcceptedInfra, AcceptsInfra, Refusal;
    RecordedExactly(env, s, call, now);
    var c := s.contract;
    forall i | 0 <= i < |c.infraProviders|
      ensures AcceptsInfra(OwnEntries(env, s, call), c.infraProviders[i].id) <==>
        AcceptedInfra(env, call.caller, c.infraProviders[i].id)
    {
      InfraApprovedExactly(env, s, call, c.infraProviders[i]);
    }
  }

  lemma InfraApprovedExactly(env: JobEnv, s: JobState, call: Call, ip: InfraProviderParty)
    requires call.InfraCall? && ip in s.contract.infraProviders
    ensures AcceptsInfra(OwnEntries(env, s, call), ip.id) <==> AcceptedInfra(env, call.caller, ip.id)
  {
    hide ItemsOf, OwnEntries, AcceptedKeys, AcceptedInfra, InfraItem;
    var items, own, caller := ItemsOf(env, s.contract, call), OwnEntries(env, s, call), call.caller;
    InfraItemsMean(env, s, call);
    if AcceptsInfra(own, ip.id) {
      var e :| e in own && e.item == ip.id && KeyOf(e) in AcceptedKeys(own);
      SignedKeysExactly(env, s, call, KeyOf(e));
      var it :| it in items && it.own && it.result.accepted && ItemKey(it) == KeyOf(e);
      InfrasAreItems(env, s.contract, call, it);
      var jp :| jp in s.contract.infraProviders && jp.id != ""
        && it == InfraItem(env.catalogues, caller, OwnerFrom(env.policies, jp.id));
      InfraOwnerItem(env, caller, jp.id);
      assert jp.id == ip.id;
    }
    if AcceptedInfra(env, caller, ip.id) {
      AcceptedHasId(env, caller, ip.id);
      var it := InfraItem(env.catalogues, caller, OwnerFrom(env.policies, ip.id));
      InfraOwnerItem(env, caller, ip.id);
      InfrasAreItems(env, s.contract, call, it);
      SignedKeysExactly(env, s, call, ItemKey(it));
      OwnEntriesExactly(env, s, call, it.result);
      ItemsCoherent(env, s.contract, call);
      var i :| 0 <= i < |items| && items[i] == it;
      assert it.result in own && KeyOf(it.result) == ItemKey(it);
    }
  }

  lemma AcceptedHasId(env: JobEnv, caller: Caller, id: string)
    ensures AcceptedInfra(env, caller, id) ==> id != ""
  {
  }

  /** d is c with exactly the parties a recorded call approves signed with its block. */
  ghost predicate SignsExactly(env: JobEnv, c: Contract, call: Call, now: Time, d: Contract) {
    && |d.dataProviders| == |c.dataProviders| && |d.infraProviders| == |c.infraProviders|
    && d == c.(dataProviders := d.dataProviders, infraProviders := d.infraProviders)
    && (forall i :: 0 <= i < |c.dataProviders| ==>
          d.dataProviders[i] == if call.DataCall? && Approves(env, c, call.caller, c.dataProviders[i])
                                then c.dataProviders[i].(signature := Block(call, now)) else c.dataProviders[i])
    && (forall i :: 0 <= i < |c.infraProviders| ==>
          d.infraProviders[i] == if call.InfraCall? && AcceptedInfra(env, call.caller, c.infraProviders[i].id)
                                 then c.infraProviders[i].(signature := Block(call, now)) else c.infraProviders[i])
  }

  lemma {:induction false} CallSignsExactly(env: JobEnv, s: JobState, call: Call, now: Time)
    ensures var (t, reply) := Approve(env, s, call, now);
      && (reply.Recorded? <==> Recordable(env, s, call))
      && (reply.Recorded? ==> SignsExactly(env, s.contract, call, now, t.contract))
  {
    hide Approve, Recordable, Approves, AcceptedInfra, Block;
    RecordedExactly(env, s, call, now);
    if Recordable(env, s, call) {
      if call.DataCall? {
        DataCallSignsExactly(env, s, call, now);
      } else {
        InfraCallSignsExactly(env, s, call, now);
      }
    }
  }

  /** A call leaves the signature of every dataset that shares a key with none of the caller's. */
  lemma {:induction false} OthersSignaturesStand(env: JobEnv, s: JobState, call: Call, now: Time, i: nat)
    requires i < |s.contract.dataProviders|
    requires forall q <- s.contract.dataProviders ::
      Theirs(call.caller, q) ==> DataKey(q) != DataKey(s.contract.dataProviders[i])
    ensures var d := Approve(env, s, call, now).0.contract;
      |d.dataProviders| == |s.contract.dataProviders| && d.dataProviders[i] == s.contract.dataProviders[i]
  {
    hide Approve, Recordable, DataKey, Theirs;
    RecordedExactly(env, s, call, now);
    if Recordable(env, s, call) {
      if call.DataCall? {
        DataCallSignsExactly(env, s, call, now);
      } else {
        InfraCallSignsExactly(env, s, call, now);
      }
    }
  }

  /**
   * After an approved data call, each dataset of the caller's verifies over the job's hash if and
   * only if their login's provider_id is its provider's.
   */
  lemma {:induction false} ApprovedCallVerifies(env: JobEnv, s: JobState, call: Call, now: Time, i: nat)
    requires call.DataCall? && Approve(env, s, call, now).1 == Recorded(Approved)
    requires i < |s.contract.dataProviders| && Theirs(call.caller, s.contract.dataProviders[i])
    ensures var p := s.contract.dataProviders[i];
      var d := Approve(env, s, call, now).0.contract;
      && |d.dataProviders| == |s.contract.dataProviders|
      && SignedJobContractHash(env.authority, d) == Some(call.hash)
      && (VerifiedSignature(env.authority, d.dataProviders[i].signature, call.hash, PartyProviderId(p)) <==>
          ProviderIdForUsername(Login(call.caller)) == PartyProviderId(p))
  {
    hide Approve, DataKey, Theirs, AcceptedDataset, HashContract, PartyProviderId, ProviderIdForUsername;
    var c, p := s.contract, s.contract.dataProviders[i];
    RecordedExactly(env, s, call, now);
    DataCallSignsExactly(env, s, call, now);
    TheirsIsKnown(call.caller, p);
    assert p in c.dataProviders;
    assert Approves(env, c, call.caller, p);
    ApproveOnlySigns(env, s, call, now);
    SubmissionExactly(env, c, call);
    SameSubmission(env.authority, c, Approve(env, s, call, now).0.contract, call);
    PartyIdHasPrefix(p);
  }

  lemma TheirsIsKnown(caller: Caller, p: DataProviderParty)
    ensures Theirs(caller, p) ==> p.id != ""
  {
  }

  lemma PartyIdHasPrefix(p: DataProviderParty)
    ensures PartyProviderId(p) != ""
  {
  }
}
