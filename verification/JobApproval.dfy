/**
 * Job approval (internal/httpapi/job_approval.go): the checks a provider's
 * approval call makes, the audit entries it appends, and the standing those
 * entries fold to. JobServer runs them.
 */
module JobApproval {
  import opened Wrappers
  import opened Text
  import opened Contracts
  import opened Signing

  datatype Kind = Data | Infra

  // (type, provider_id, item); no part can hold the NUL the source joins them with.
  type AuditKey = (Kind, string, string)

  datatype Reason =
    | AwaitingCall | NoKnownProvider | NoRole | NoCatalogueId
    | NotFoundInCatalogue | TokenRefused | LookupFailed | NotADataset

  datatype AuditEntry = AuditEntry(
    kind: Kind,
    providerId: string,
    item: string,
    accepted: bool,
    hasRole: bool,
    inCatalogue: bool,
    reasons: seq<Reason>)

  function KeyOf(e: AuditEntry): AuditKey {
    (e.kind, e.providerId, e.item)
  }

  // ---- who is calling

  /** The DX catalogue's answer for one item to one caller's token. */
  datatype Lookup = DataBank | OtherType | Missing | Refused | Failed

  datatype Caller = Caller(
    preferredUsername: string,
    email: string,
    sub: string,
    roles: set<string>,
    catalogue: map<string, Lookup>)
  {
    function Username(): string {
      if preferredUsername != "" then preferredUsername else email
    }

    /** provider_ids, usernames, emails and the sub that name the caller on a contract. */
    function Names(): set<string> {
      (if preferredUsername != "" then {ProviderIdForUsername(preferredUsername), Lower(preferredUsername)} else {}) +
      (if email != "" then {ProviderIdForUsername(email), Lower(email)} else {}) +
      (if sub != "" then {Lower(sub)} else {})
    }

    predicate Owns(providerId: string) {
      providerId != "" && (providerId in Names() || Lower(providerId) in Names())
    }

    predicate Is(p: DataProviderParty) {
      p.id != "" && (PartyProviderId(p) in Names() || Lower(p.id) in Names())
    }
  }

  // ---- items

  predicate IsHex(ch: char) {
    IsDigit(ch) || 'a' <= ch <= 'f' || 'A' <= ch <= 'F'
  }

  predicate IsUuid(s: string) {
    |s| == 36 && forall i :: 0 <= i < 36 ==>
      if i == 8 || i == 13 || i == 18 || i == 23 then s[i] == '-' else IsHex(s[i])
  }

  function CatalogueItemId(p: DataProviderParty): string {
    if p.datasetId != "" then p.datasetId else if IsUuid(p.datasetName) then p.datasetName else ""
  }

  function ApprovalItem(p: DataProviderParty): string {
    if CatalogueItemId(p) != "" then CatalogueItemId(p) else p.datasetName
  }

  function AuditProvider(p: DataProviderParty): string {
    if p.id != "" then PartyProviderId(p) else ""
  }

  function DataKey(p: DataProviderParty): AuditKey {
    (Data, AuditProvider(p), ApprovalItem(p))
  }

  /** One dataset or infra as seen by one caller: theirs or not, and the entry each case writes. */
  datatype Item = Item(own: bool, result: AuditEntry, awaiting: AuditEntry)

  function ItemKey(it: Item): AuditKey {
    KeyOf(it.awaiting)
  }

  function LookupReason(l: Lookup): seq<Reason> {
    match l
    case DataBank => []
    case OtherType => [NotADataset]
    case Missing => [NotFoundInCatalogue]
    case Refused => [TokenRefused]
    case Failed => [LookupFailed]
  }

  /** hasProviderKeyRole for data providers; role is DATA_PROVIDER_ROLE. */
  predicate HasDataRole(caller: Caller, role: string) {
    "data-provider" in caller.roles || "provider" in caller.roles || role in caller.roles
  }

  function LookupItem(caller: Caller, itemId: string): Lookup {
    if itemId in caller.catalogue then caller.catalogue[itemId] else Missing
  }

  predicate InDataCatalogue(caller: Caller, p: DataProviderParty) {
    CatalogueItemId(p) != "" && LookupItem(caller, CatalogueItemId(p)) == DataBank
  }

  function DataResult(role: string, caller: Caller, p: DataProviderParty): AuditEntry {
    var hasRole, inCatalogue := HasDataRole(caller, role), InDataCatalogue(caller, p);
    AuditEntry(Data, AuditProvider(p), ApprovalItem(p), hasRole && inCatalogue, hasRole, inCatalogue,
               (if hasRole then [] else [NoRole]) +
               (if CatalogueItemId(p) == "" then [NoCatalogueId]
                else LookupReason(LookupItem(caller, CatalogueItemId(p)))))
  }

  function AwaitingData(p: DataProviderParty): AuditEntry {
    AuditEntry(Data, AuditProvider(p), ApprovalItem(p), false, false, false,
               [if p.id == "" then NoKnownProvider else AwaitingCall])
  }

  function DataItem(role: string, caller: Caller, p: DataProviderParty): Item {
    Item(caller.Is(p), DataResult(role, caller, p), AwaitingData(p))
  }

  function DataItems(role: string, caller: Caller, ps: seq<DataProviderParty>): (r: seq<Item>)
    ensures |r| == |ps|
  {
    seq(|ps|, i requires 0 <= i < |ps| => DataItem(role, caller, ps[i]))
  }

  /** A selected infra and its owner, read off its APD policy; known is false when that failed. */
  datatype InfraOwner = InfraOwner(infraId: string, providerId: string, known: bool)

  function OwnerFrom(policies: map<string, string>, infraId: string): InfraOwner {
    if infraId in policies then InfraOwner(infraId, policies[infraId], policies[infraId] != "")
    else InfraOwner(infraId, "", false)
  }

  function InfraOwners(ips: seq<InfraProviderParty>, policies: map<string, string>): seq<InfraOwner> {
    if ips == [] then []
    else
      var last := ips[|ips| - 1];
      InfraOwners(ips[..|ips| - 1], policies) + (if last.id == "" then [] else [OwnerFrom(policies, last.id)])
  }

  datatype CatalogueItem = CatalogueItem(itemId: string, name: string)

  predicate CatalogueHas(items: seq<CatalogueItem>, item: string) {
    exists i :: 0 <= i < |items| && (items[i].itemId == item || EqualFold(items[i].name, item))
  }

  /** Each provider's own APD catalogue; a provider without one failed to list. */
  type Catalogues = map<string, seq<CatalogueItem>>

  const INFRA_ROLE := "infra-provider"

  function InfraResult(catalogues: Catalogues, caller: Caller, o: InfraOwner): AuditEntry {
    var hasRole := INFRA_ROLE in caller.roles;
    var listed := o.providerId in catalogues;
    var inCatalogue := listed && CatalogueHas(catalogues[o.providerId], o.infraId);
    AuditEntry(Infra, o.providerId, o.infraId, hasRole && inCatalogue, hasRole, inCatalogue,
               (if hasRole then [] else [NoRole]) +
               (if !listed then [LookupFailed] else if inCatalogue then [] else [NotFoundInCatalogue]))
  }

  function AwaitingInfra(o: InfraOwner): AuditEntry {
    AuditEntry(Infra, o.providerId, o.infraId, false, false, false, [if o.known then AwaitingCall else NoKnownProvider])
  }

  function InfraItem(catalogues: Catalogues, caller: Caller, o: InfraOwner): Item {
    Item(caller.Owns(o.providerId), InfraResult(catalogues, caller, o), AwaitingInfra(o))
  }

  function InfraItems(catalogues: Catalogues, caller: Caller, owners: seq<InfraOwner>): (r: seq<Item>)
    ensures |r| == |owners|
  {
    seq(|owners|, i requires 0 <= i < |owners| => InfraItem(catalogues, caller, owners[i]))
  }

  /** The entries a call appends: its own results, and "awaiting" for items nobody was checked on yet. */
  function Entries(items: seq<Item>, checked: set<AuditKey>): seq<AuditEntry> {
    if items == [] then []
    else
      var it := items[|items| - 1];
      Entries(items[..|items| - 1], checked) +
      (if it.own then [it.result] else if ItemKey(it) in checked then [] else [it.awaiting])
  }

  // ---- folding the audit history

  function Last(log: seq<AuditEntry>, key: AuditKey): Option<AuditEntry> {
    if log == [] then None
    else if KeyOf(log[|log| - 1]) == key then Some(log[|log| - 1])
    else Last(log[..|log| - 1], key)
  }

  /** Every key of log, in the order it first appears. */
  function FirstSeen(log: seq<AuditEntry>): seq<AuditKey> {
    if log == [] then []
    else
      var order, key := FirstSeen(log[..|log| - 1]), KeyOf(log[|log| - 1]);
      if key in order then order else order + [key]
  }

  lemma {:induction false} SeenIffLast(log: seq<AuditEntry>, key: AuditKey)
    ensures key in FirstSeen(log) <==> Last(log, key).Some?
    ensures Last(log, key).Some? ==> KeyOf(Last(log, key).value) == key && Last(log, key).value in log
  {
    if log != [] {
      SeenIffLast(log[..|log| - 1], key);
      assert log == log[..|log| - 1] + [log[|log| - 1]];
    }
  }

  function CurrentOf(log: seq<AuditEntry>, keys: seq<AuditKey>): (r: seq<AuditEntry>)
    requires forall k <- keys :: Last(log, k).Some?
    ensures |r| == |keys|
  {
    seq(|keys|, i requires 0 <= i < |keys| => Last(log, keys[i]).value)
  }

  /** The current entries: the latest per key, in first-seen order. */
  function Current(log: seq<AuditEntry>): seq<AuditEntry> {
    assert forall k <- FirstSeen(log) :: Last(log, k).Some? by {
      forall k | k in FirstSeen(log) ensures Last(log, k).Some? { SeenIffLast(log, k); }
    }
    CurrentOf(log, FirstSeen(log))
  }

  function OfKind(es: seq<AuditEntry>, kind: Kind): seq<AuditEntry> {
    if es == [] then []
    else
      OfKind(es[..|es| - 1], kind) + (if es[|es| - 1].kind == kind then [es[|es| - 1]] else [])
  }

  datatype Standing = Pending | Rejected | Approved

  function OverallStatus(es: seq<AuditEntry>): Standing {
    if es == [] then Pending
    else if forall i :: 0 <= i < |es| ==> es[i].accepted then Approved
    else Rejected
  }

  datatype ApprovalState = ApprovalState(
    dataProvider: Standing, infraProvider: Standing, current: seq<AuditEntry>, infraRequired: bool)
  {
    predicate Accepted() {
      dataProvider == Approved && (!infraRequired || infraProvider == Approved)
    }

    function Approval(): Standing {
      if Accepted() then Approved
      else if dataProvider == Rejected || (infraRequired && infraProvider == Rejected) then Rejected
      else Pending
    }
  }

  function LoadState(log: seq<AuditEntry>, infraRequired: bool): ApprovalState {
    var current := Current(log);
    ApprovalState(OverallStatus(OfKind(current, Data)), OverallStatus(OfKind(current, Infra)), current, infraRequired)
  }

  function CheckedKeys(log: seq<AuditEntry>, kind: Kind): set<AuditKey> {
    set e | e in Current(log) && e.kind == kind :: KeyOf(e)
  }

  // ---- hashes and signatures of a job contract

  /** The hash a job's providers sign, or None when the stored contract no longer matches it. */
  function SignedJobContractHash(a: Authority, c: Contract): Option<Hash> {
    var hash := HashContract(c);
    if c.contractHash == NoHash || hash == c.contractHash then Some(hash)
    else if AmendmentValid(a, c, hash) then Some(c.contractHash)
    else None
  }

  predicate SubmittedSignatureOk(a: Authority, c: Contract, username: string, hash: Hash, value: SigValue) {
    && SignedJobContractHash(a, c) == Some(hash)
    && a.PublicKey(username).Some?
    && Verifies(a.PublicKey(username).value, hash, value)
  }

  function ApprovalSignature(username: string, hash: Hash, value: SigValue, now: Time): Signature {
    Signature(Some(now), username, ALGORITHM, hash, value, None)
  }

  function AcceptedKeys(own: seq<AuditEntry>): set<AuditKey> {
    set e | e in own && e.accepted :: KeyOf(e)
  }

  function SignData(ps: seq<DataProviderParty>, own: seq<AuditEntry>, sig: Signature): (r: seq<DataProviderParty>)
    ensures |r| == |ps|
  {
    seq(|ps|, i requires 0 <= i < |ps| =>
      if ps[i].id != "" && (Data, PartyProviderId(ps[i]), ApprovalItem(ps[i])) in AcceptedKeys(own)
      then ps[i].(signature := sig) else ps[i])
  }

  predicate AcceptsInfra(own: seq<AuditEntry>, id: string) {
    id != "" && exists e <- own :: e.item == id && KeyOf(e) in AcceptedKeys(own)
  }

  function SignInfra(ips: seq<InfraProviderParty>, own: seq<AuditEntry>, sig: Signature): (r: seq<InfraProviderParty>)
    ensures |r| == |ips|
  {
    seq(|ips|, i requires 0 <= i < |ips| =>
      if AcceptsInfra(own, ips[i].id) then ips[i].(signature := sig) else ips[i])
  }

  // ---- the two approval calls

  /** What stays the same over one job: keys, roles, infra owners and provider catalogues. */
  datatype JobEnv = JobEnv(
    authority: Authority, role: string, policies: map<string, string>, catalogues: Catalogues)

  datatype Call =
    | DataCall(caller: Caller, hash: Hash, value: SigValue)
    | InfraCall(caller: Caller, hash: Hash, value: SigValue)

  datatype JobState = JobState(contract: Contract, log: seq<AuditEntry>)

  datatype CallReply = Recorded(standing: Standing) | NotRecorded(code: string)

  function KindOf(call: Call): Kind {
    if call.DataCall? then Data else Infra
  }

  /** The items of the contract the call is about, as its caller sees them. */
  function ItemsOf(env: JobEnv, c: Contract, call: Call): seq<Item> {
    if call.DataCall? then DataItems(env.role, call.caller, c.dataProviders)
    else InfraItems(env.catalogues, call.caller, InfraOwners(c.infraProviders, env.policies))
  }

  predicate OwnsAny(items: seq<Item>) {
    exists i :: 0 <= i < |items| && items[i].own
  }

  predicate OwnsKey(items: seq<Item>, key: AuditKey) {
    exists i :: 0 <= i < |items| && items[i].own && ItemKey(items[i]) == key
  }

  function Filter(es: seq<AuditEntry>, keep: set<AuditKey>): seq<AuditEntry> {
    if es == [] then []
    else Filter(es[..|es| - 1], keep) + (if KeyOf(es[|es| - 1]) in keep then [es[|es| - 1]] else [])
  }

  function OwnKeys(items: seq<Item>): set<AuditKey> {
    set i | 0 <= i < |items| && items[i].own :: ItemKey(items[i])
  }

  /** The caller's own entries among the ones the call writes. */
  function OwnEntries(env: JobEnv, s: JobState, call: Call): seq<AuditEntry> {
    var items := ItemsOf(env, s.contract, call);
    Filter(Entries(items, CheckedKeys(s.log, KindOf(call))), OwnKeys(items))
  }

  function Signed(env: JobEnv, s: JobState, call: Call, now: Time): Contract {
    var own := OwnEntries(env, s, call);
    var sig := ApprovalSignature(call.caller.Username(), call.hash, call.value, now);
    if call.DataCall? then s.contract.(dataProviders := SignData(s.contract.dataProviders, own, sig))
    else s.contract.(infraProviders := SignInfra(s.contract.infraProviders, own, sig))
  }

  /** Why a call is refused, or None when it is recorded. */
  function Refusal(env: JobEnv, s: JobState, call: Call): Option<string> {
    var c, caller := s.contract, call.caller;
    if !NeedsJobApproval(c) then Some("NO_APPROVAL_NEEDED")
    else if !OwnsAny(ItemsOf(env, c, call)) then
      Some(if call.DataCall? then "NOT_A_DATA_PROVIDER_ON_CONTRACT" else "NOT_AN_INFRA_PROVIDER_ON_CONTRACT")
    else if call.hash == NoHash || call.value == NoValue then Some("MISSING_FIELDS")
    else if call.DataCall? && OverallStatus(OwnEntries(env, s, call)) == Approved
         && !SubmittedSignatureOk(env.authority, c, caller.Username(), call.hash, call.value)
    then Some("INVALID_SIGNATURE")
    else None
  }

  function Approve(env: JobEnv, s: JobState, call: Call, now: Time): (JobState, CallReply) {
    var refusal := Refusal(env, s, call);
    if refusal.Some? then (s, NotRecorded(refusal.value))
    else
      (JobState(Signed(env, s, call, now),
                s.log + Entries(ItemsOf(env, s.contract, call), CheckedKeys(s.log, KindOf(call)))),
       Recorded(OverallStatus(OwnEntries(env, s, call))))
  }
}
