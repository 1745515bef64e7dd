/**
 * What an accepted job rests on: after any run of approval calls and consumer edits, the keys in
 * the audit log are exactly the contract's, and accepted entries are their owners' own results.
 */
module Coverage {
  import opened Contracts
  import Signing
  import SigningRuns
  import opened JobApproval
  import opened ApprovalRuns
  import opened ApprovalSteps

  datatype Request = Approval(call: Call) | Edit(edit: Signing.EditRequest)

  type TimedRequest = (Request, Time)

  function Step(env: JobEnv, s: JobState, req: Request, now: Time): JobState {
    match req
    case Approval(call) => Approve(env, s, call, now).0
    case Edit(r) => s.(contract := Signing.EditContract(env.authority, s.contract, r, now).contract)
  }

  function JobRun(env: JobEnv, s: JobState, reqs: seq<TimedRequest>): JobState {
    if reqs == [] then s
    else
      var n := |reqs| - 1;
      Step(env, JobRun(env, s, reqs[..n]), reqs[n].0, reqs[n].1)
  }

  // ---- the contract's keys

  /** The keys of c's datasets, or of its infras as their owners are known. */
  function KeysOf(env: JobEnv, c: Contract, kind: Kind): seq<AuditKey> {
    match kind
    case Data => seq(|c.dataProviders|, i requires 0 <= i < |c.dataProviders| => DataKey(c.dataProviders[i]))
    case Infra =>
      var owners := InfraOwners(c.infraProviders, env.policies);
      seq(|owners|, i requires 0 <= i < |owners| => (Infra, owners[i].providerId, owners[i].infraId))
  }

  /** Datasets keep their keys under edits when they carry a catalogue id; infras always do. */
  predicate KeysStay(c: Contract, kind: Kind) {
    kind == Data ==> forall p <- c.dataProviders :: p.datasetId != ""
  }

  lemma ItemKeys(env: JobEnv, c: Contract, call: Call)
    ensures var items, keys := ItemsOf(env, c, call), KeysOf(env, c, KindOf(call));
      |items| == |keys| && forall i :: 0 <= i < |items| ==> ItemKey(items[i]) == keys[i]
  {
    hide InfraOwners, PartyProviderId, ApprovalItem;
  }

  /** What keeps keys: who the datasets are of and their ids, and which infras there are. */
  ghost predicate SameItems(c: Contract, d: Contract) {
    && |d.dataProviders| == |c.dataProviders| && |d.infraProviders| == |c.infraProviders|
    && (forall i :: 0 <= i < |c.dataProviders| ==>
          var p, q := c.dataProviders[i], d.dataProviders[i];
          q.id == p.id && q.name == p.name && q.datasetId == p.datasetId)
    && (forall i :: 0 <= i < |c.infraProviders| ==> d.infraProviders[i].id == c.infraProviders[i].id)
  }

  lemma StepKeepsItems(env: JobEnv, s: JobState, req: Request, now: Time)
    ensures SameItems(s.contract, Step(env, s, req, now).contract)
  {
    match req
    case Approval(call) =>
      ApproveOnlySigns(env, s, call, now);
      hide Approve;
    case Edit(r) =>
      SigningRuns.EditKeepsFrame(env.authority, s.contract, r, now);
      hide Signing.EditContract;
      var d := Step(env, s, req, now).contract;
      assert forall i :: 0 <= i < |d.dataProviders| ==>
        SigningRuns.SameSigner(s.contract.dataProviders[i], d.dataProviders[i]);
  }

  lemma SameItemsSameKeys(env: JobEnv, c: Contract, d: Contract, kind: Kind)
    requires SameItems(c, d) && KeysStay(c, kind)
    ensures KeysOf(env, d, kind) == KeysOf(env, c, kind) && KeysStay(d, kind)
  {
    if kind == Infra {
      SameOwners(c.infraProviders, d.infraProviders, env.policies);
    } else {
      forall i | 0 <= i < |c.dataProviders|
        ensures DataKey(d.dataProviders[i]) == DataKey(c.dataProviders[i]) && d.dataProviders[i].datasetId != ""
      {
        assert c.dataProviders[i] in c.dataProviders;
      }
    }
  }

  lemma {:induction false} RunKeepsKeys(env: JobEnv, c: Contract, reqs: seq<TimedRequest>, kind: Kind)
    requires KeysStay(c, kind)
    ensures var d := JobRun(env, JobState(c, []), reqs).contract;
      KeysOf(env, d, kind) == KeysOf(env, c, kind) && KeysStay(d, kind)
  {
    if reqs != [] {
      hide Step, KeysOf, KeysStay;
      var n := |reqs| - 1;
      var s := JobRun(env, JobState(c, []), reqs[..n]);
      RunKeepsKeys(env, c, reqs[..n], kind);
      StepKeepsItems(env, s, reqs[n].0, reqs[n].1);
      SameItemsSameKeys(env, s.contract, Step(env, s, reqs[n].0, reqs[n].1).contract, kind);
    }
  }

  // ---- entries and the calls they came from

  /**
   * e is the caller's own result for one of their items (Is for a dataset, Owns for an infra), in
   * a call made on s and recorded.
   */
  ghost predicate OwnResult(env: JobEnv, s: JobState, call: Call, e: AuditEntry) {
    && Refusal(env, s, call).None?
    && exists it <- ItemsOf(env, s.contract, call) :: it.own && e == it.result
  }

  /** Request k of the run is the recorded call e came from. */
  ghost predicate EarnedAt(env: JobEnv, c: Contract, reqs: seq<TimedRequest>, e: AuditEntry, k: nat) {
    k < |reqs| && reqs[k].0.Approval? && OwnResult(env, JobRun(env, JobState(c, []), reqs[..k]), reqs[k].0.call, e)
  }

  ghost predicate Earned(env: JobEnv, c: Contract, reqs: seq<TimedRequest>, e: AuditEntry) {
    exists k: nat | k < |reqs| :: EarnedAt(env, c, reqs, e, k)
  }

  /** Every entry of the kind is about a key of the contract's, and accepted ones were earned. */
  ghost predicate Justified(env: JobEnv, c: Contract, reqs: seq<TimedRequest>, log: seq<AuditEntry>, kind: Kind) {
    forall e <- log :: e.kind == kind ==>
      KeyOf(e) in KeysOf(env, c, kind) && (e.accepted ==> Earned(env, c, reqs, e))
  }

  /** Once any item of the kind has been checked, all of them have an entry. */
  ghost predicate Covered(env: JobEnv, c: Contract, log: seq<AuditEntry>, kind: Kind) {
    (exists e <- log :: e.kind == kind) ==> forall key <- KeysOf(env, c, kind) :: Last(log, key).Some?
  }

  lemma {:induction false} EntriesFrom(items: seq<Item>, checked: set<AuditKey>, e: AuditEntry)
    requires e in Entries(items, checked)
    ensures exists it <- items :: if it.own then e == it.result else e == it.awaiting
  {
    var n := |items| - 1;
    assert items == items[..n] + [items[n]];
    if e in Entries(items[..n], checked) {
      EntriesFrom(items[..n], checked, e);
    }
  }

  lemma EarnedStays(env: JobEnv, c: Contract, reqs: seq<TimedRequest>, x: TimedRequest, e: AuditEntry)
    requires Earned(env, c, reqs, e)
    ensures Earned(env, c, reqs + [x], e)
  {
    hide OwnResult;
    var k: nat :| k < |reqs| && EarnedAt(env, c, reqs, e, k);
    assert (reqs + [x])[..k] == reqs[..k];
    assert EarnedAt(env, c, reqs + [x], e, k);
  }

  /** Only a caller's own results are accepted entries. */
  lemma AwaitingIsRejected(env: JobEnv, c: Contract, call: Call)
    ensures forall it <- ItemsOf(env, c, call) :: !it.awaiting.accepted
  {
    hide InfraOwners;
  }

  lemma CallJustifies(env: JobEnv, c: Contract, reqs: seq<TimedRequest>, call: Call, now: Time, kind: Kind,
                      e: AuditEntry)
    requires KeysStay(c, kind) && e.kind == kind
    requires Refusal(env, JobRun(env, JobState(c, []), reqs), call).None?
    requires var s := JobRun(env, JobState(c, []), reqs);
      e in Entries(ItemsOf(env, s.contract, call), CheckedKeys(s.log, KindOf(call)))
    ensures KindOf(call) == kind && KeyOf(e) in KeysOf(env, c, kind)
    ensures e.accepted ==> Earned(env, c, reqs + [(Approval(call), now)], e)
  {
    hide ItemsOf, Refusal, CheckedKeys, KeysOf, JobRun;
    var s, more := JobRun(env, JobState(c, []), reqs), reqs + [(Approval(call), now)];
    var items := ItemsOf(env, s.contract, call);
    EntriesFrom(items, CheckedKeys(s.log, KindOf(call)), e);
    var it :| it in items && if it.own then e == it.result else e == it.awaiting;
    var i :| 0 <= i < |items| && items[i] == it;
    ItemsCoherent(env, s.contract, call);
    ItemKeys(env, s.contract, call);
    RunKeepsKeys(env, c, reqs, kind);
    AwaitingIsRejected(env, s.contract, call);
    assert KeyOf(e) == ItemKey(it);
    if e.accepted {
      assert more[..|reqs|] == reqs;
      assert EarnedAt(env, c, more, e, |reqs|);
    }
  }

  lemma StepJustified(env: JobEnv, c: Contract, reqs: seq<TimedRequest>, x: TimedRequest, kind: Kind)
    requires KeysStay(c, kind)
    requires Justified(env, c, reqs, JobRun(env, JobState(c, []), reqs).log, kind)
    ensures Justified(env, c, reqs + [x], JobRun(env, JobState(c, []), reqs + [x]).log, kind)
  {
    hide ItemsOf, Refusal, CheckedKeys, KeysOf, Signed, Earned, OwnEntries;
    var s, t := JobRun(env, JobState(c, []), reqs), JobRun(env, JobState(c, []), reqs + [x]);
    assert (reqs + [x])[..|reqs|] == reqs;
    forall e | e in t.log && e.kind == kind
      ensures KeyOf(e) in KeysOf(env, c, kind) && (e.accepted ==> Earned(env, c, reqs + [x], e))
    {
      if e in s.log {
        if e.accepted {
          EarnedStays(env, c, reqs, x, e);
        }
      } else {
        CallJustifies(env, c, reqs, x.0.call, x.1, kind, e);
      }
    }
  }

  lemma AllCheckedCovers(env: JobEnv, c: Contract, log: seq<AuditEntry>, call: Call)
    requires AllChecked(env, c, log, KindOf(call))
    ensures forall key <- KeysOf(env, c, KindOf(call)) :: Last(log, key).Some?
  {
    hide ItemsOf, KeysOf;
    ItemKeys(env, c, call);
    var items, keys := ItemsOf(env, c, call), KeysOf(env, c, KindOf(call));
    forall key | key in keys ensures Last(log, key).Some? {
      var i :| 0 <= i < |keys| && keys[i] == key;
      assert items[i] in items;
    }
  }

  /** A recorded call of the kind leaves none of the contract's keys unchecked. */
  lemma CallCovers(env: JobEnv, c: Contract, reqs: seq<TimedRequest>, call: Call, now: Time)
    requires KeysStay(c, KindOf(call))
    requires Refusal(env, JobRun(env, JobState(c, []), reqs), call).None?
    ensures var t := Approve(env, JobRun(env, JobState(c, []), reqs), call, now).0;
      forall key <- KeysOf(env, c, KindOf(call)) :: Last(t.log, key).Some?
  {
    hide ItemsOf, Refusal, KeysOf, JobRun, Approve, AllChecked;
    var s := JobRun(env, JobState(c, []), reqs);
    RunKeepsKeys(env, c, reqs, KindOf(call));
    RecordedCovers(env, s, call, now);
    AllCheckedCovers(env, s.contract, Approve(env, s, call, now).0.log, call);
  }

  lemma StepCovered(env: JobEnv, c: Contract, reqs: seq<TimedRequest>, x: TimedRequest, kind: Kind)
    requires KeysStay(c, kind) && Covered(env, c, JobRun(env, JobState(c, []), reqs).log, kind)
    ensures Covered(env, c, JobRun(env, JobState(c, []), reqs + [x]).log, kind)
  {
    hide ItemsOf, Refusal, CheckedKeys, KeysOf, Signed, OwnEntries;
    var s, t := JobRun(env, JobState(c, []), reqs), JobRun(env, JobState(c, []), reqs + [x]);
    assert (reqs + [x])[..|reqs|] == reqs;
    if t.log != s.log {
      var call := x.0.call;
      if KindOf(call) == kind {
        CallCovers(env, c, reqs, call, x.1);
      } else if e :| e in t.log && e.kind == kind {
        if e !in s.log {
          CallJustifiesKind(env, s, call, e);
        }
        assert e in s.log;
        forall key | key in KeysOf(env, c, kind) ensures Last(t.log, key).Some? {
          RecordedStatus(env, s, call, x.1, key);
        }
      }
    }
  }

  lemma CallJustifiesKind(env: JobEnv, s: JobState, call: Call, e: AuditEntry)
    requires e in Entries(ItemsOf(env, s.contract, call), CheckedKeys(s.log, KindOf(call)))
    ensures e.kind == KindOf(call)
  {
    hide ItemsOf, CheckedKeys;
    EntriesFrom(ItemsOf(env, s.contract, call), CheckedKeys(s.log, KindOf(call)), e);
    ItemsCoherent(env, s.contract, call);
  }

  lemma {:induction false} RunsJustified(env: JobEnv, c: Contract, reqs: seq<TimedRequest>, kind: Kind)
    requires KeysStay(c, kind)
    ensures var log := JobRun(env, JobState(c, []), reqs).log;
      Justified(env, c, reqs, log, kind) && Covered(env, c, log, kind)
  {
    if reqs != [] {
      hide Justified, Covered, JobRun, KeysStay;
      var n := |reqs| - 1;
      RunsJustified(env, c, reqs[..n], kind);
      StepJustified(env, c, reqs[..n], reqs[n], kind);
      StepCovered(env, c, reqs[..n], reqs[n], kind);
      assert reqs[..n] + [reqs[n]] == reqs;
    }
  }

  // ---- what "accepted" rests on

  /** After a recorded call of a kind, the keys of that kind in the log are exactly the contract's. */
  lemma {:induction false} KeysAreExactlyTheContracts(env: JobEnv, c: Contract, reqs: seq<TimedRequest>, kind: Kind,
                                                      key: AuditKey)
    requires KeysStay(c, kind) && key.0 == kind
    requires exists e <- JobRun(env, JobState(c, []), reqs).log :: e.kind == kind
    ensures var s := JobRun(env, JobState(c, []), reqs);
      && (Last(s.log, key).Some? <==> key in KeysOf(env, s.contract, kind))
      && KeysOf(env, s.contract, kind) == KeysOf(env, c, kind)
  {
    hide KeysOf, JobRun, KeysStay, Earned;
    var s := JobRun(env, JobState(c, []), reqs);
    RunsJustified(env, c, reqs, kind);
    RunKeepsKeys(env, c, reqs, kind);
    SeenIffLast(s.log, key);
  }

  /** The call accepts an item under key: a dataset of the caller's, or an infra its policy names them the owner of. */
  ghost predicate AcceptsKey(env: JobEnv, c: Contract, call: Call, key: AuditKey) {
    match call
    case DataCall(caller, _, _) => exists p <- c.dataProviders :: AcceptedDataset(env, caller, p) && DataKey(p) == key
    case InfraCall(caller, _, _) =>
      exists ip <- c.infraProviders ::
        AcceptedInfra(env, caller, ip.id) && key == (Infra, env.policies[ip.id], ip.id)
  }

  /** An accepted own result comes from a recorded call that accepts an item under its key. */
  lemma AcceptedResult(env: JobEnv, s: JobState, call: Call, e: AuditEntry)
    requires OwnResult(env, s, call, e) && e.accepted
    ensures Recordable(env, s, call) && AcceptsKey(env, s.contract, call, KeyOf(e))
  {
    hide ItemsOf, Recordable, DataItem, InfraItem, DataKey, AcceptedDataset, AcceptedInfra;
    RecordedExactly(env, s, call, ZERO_TIME);
    ItemsCoherent(env, s.contract, call);
    var it :| it in ItemsOf(env, s.contract, call) && it.own && e == it.result;
    var i :| 0 <= i < |ItemsOf(env, s.contract, call)| && ItemsOf(env, s.contract, call)[i] == it;
    if call.DataCall? {
      DatasetsAreItems(env, s.contract, call, it);
      var p :| p in s.contract.dataProviders && it == DataItem(env.role, call.caller, p);
      DatasetItem(env, call.caller, p);
    } else {
      InfrasAreItems(env, s.contract, call, it);
      var ip :| ip in s.contract.infraProviders && ip.id != ""
        && it == InfraItem(env.catalogues, call.caller, OwnerFrom(env.policies, ip.id));
      InfraOwnerItem(env, call.caller, ip.id);
      InfraKey(env, call.caller, ip.id);
    }
  }

  lemma InfraKey(env: JobEnv, caller: Caller, id: string)
    requires TheirInfra(env, caller, id)
    ensures ItemKey(InfraItem(env.catalogues, caller, OwnerFrom(env.policies, id))) == (Infra, env.policies[id], id)
  {
  }

  /** Request k of the run, an approval call, is recorded and accepts an item under e's key, and e is its result. */
  ghost predicate AcceptedAt(env: JobEnv, c: Contract, reqs: seq<TimedRequest>, e: AuditEntry, k: nat) {
    && EarnedAt(env, c, reqs, e, k)
    && (var s, call := JobRun(env, JobState(c, []), reqs[..k]), reqs[k].0.call;
        Recordable(env, s, call) && AcceptsKey(env, s.contract, call, KeyOf(e)))
  }

  /**
   * One side of a job accepted: the latest entry of every key of the contract's is the result of a
   * recorded call whose caller owns an item under it, holds the role and has it in the catalogue.
   */
  ghost predicate SideEarned(env: JobEnv, c: Contract, reqs: seq<TimedRequest>, kind: Kind) {
    var s := JobRun(env, JobState(c, []), reqs);
    && KeysOf(env, c, kind) != []
    && forall key <- KeysOf(env, c, kind) ::
      && Last(s.log, key).Some?
      && (var e := Last(s.log, key).value;
          && KeyOf(e) == key && key.1 != "" && e.accepted && e.hasRole && e.inCatalogue
          && exists k: nat | k < |reqs| :: AcceptedAt(env, c, reqs, e, k))
  }

  /** An own result names a known provider, and is accepted exactly with role and catalogue both. */
  lemma OwnResultsHold(env: JobEnv, s: JobState, call: Call, e: AuditEntry)
    requires OwnResult(env, s, call, e)
    ensures e.providerId != "" && (e.accepted <==> e.hasRole && e.inCatalogue)
  {
    hide InfraOwners, Refusal, CatalogueHas, InDataCatalogue, ApprovalItem;
    var it :| it in ItemsOf(env, s.contract, call) && it.own && e == it.result;
  }

  lemma AcceptedSideIsEarned(env: JobEnv, c: Contract, reqs: seq<TimedRequest>, kind: Kind)
    requires KeysStay(c, kind) && AllAccepted(JobRun(env, JobState(c, []), reqs).log, kind)
    ensures SideEarned(env, c, reqs, kind)
  {
    hide KeysOf, JobRun, KeysStay, OwnResult, Recordable, AcceptsKey;
    var s := JobRun(env, JobState(c, []), reqs);
    RunsJustified(env, c, reqs, kind);
    var key: AuditKey :| key.0 == kind && Last(s.log, key).Some?;
    SeenIffLast(s.log, key);
    assert Last(s.log, key).value in s.log;
    forall key | key in KeysOf(env, c, kind)
      ensures Last(s.log, key).Some?
      ensures var e := Last(s.log, key).value;
        && KeyOf(e) == key && key.1 != "" && e.accepted && e.hasRole && e.inCatalogue
        && exists k: nat | k < |reqs| :: AcceptedAt(env, c, reqs, e, k)
    {
      SeenIffLast(s.log, key);
      KeyKinds(env, c, kind, key);
      var e := Last(s.log, key).value;
      assert e.accepted && Earned(env, c, reqs, e);
      var k: nat :| k < |reqs| && EarnedAt(env, c, reqs, e, k);
      OwnResultsHold(env, JobRun(env, JobState(c, []), reqs[..k]), reqs[k].0.call, e);
      AcceptedResult(env, JobRun(env, JobState(c, []), reqs[..k]), reqs[k].0.call, e);
      assert AcceptedAt(env, c, reqs, e, k);
    }
  }

  lemma KeyKinds(env: JobEnv, c: Contract, kind: Kind, key: AuditKey)
    requires key in KeysOf(env, c, kind)
    ensures key.0 == kind
  {
    hide InfraOwners;
  }

  /**
   * Main result: after any run of approval calls and consumer edits, an accepted job has every
   * dataset accepted by its own provider's recorded call, role and catalogue both checked; and,
   * where infra approval is required, every selected infra by its own owner's.
   */
  lemma {:induction false} AcceptedIsEarned(env: JobEnv, c: Contract, reqs: seq<TimedRequest>, infraRequired: bool)
    requires LoadState(JobRun(env, JobState(c, []), reqs).log, infraRequired).Accepted()
    ensures KeysStay(c, Data) ==> SideEarned(env, c, reqs, Data)
    ensures infraRequired ==> SideEarned(env, c, reqs, Infra)
  {
    hide KeysOf, JobRun, LoadState, SideEarned, AllAccepted;
    AcceptedMeans(JobRun(env, JobState(c, []), reqs).log, infraRequired);
    if KeysStay(c, Data) {
      AcceptedSideIsEarned(env, c, reqs, Data);
    }
    if infraRequired {
      AcceptedSideIsEarned(env, c, reqs, Infra);
    }
  }

  /** A job with a provider-less dataset is never accepted. */
  lemma {:induction false} ProviderlessNeverAccepted(env: JobEnv, c: Contract, reqs: seq<TimedRequest>,
                                                     infraRequired: bool, i: nat)
    requires KeysStay(c, Data) && i < |c.dataProviders| && c.dataProviders[i].id == ""
    ensures !LoadState(JobRun(env, JobState(c, []), reqs).log, infraRequired).Accepted()
  {
    hide JobRun, LoadState, KeysStay;
    assert KeysOf(env, c, Data)[i] == DataKey(c.dataProviders[i]);
    assert DataKey(c.dataProviders[i]) in KeysOf(env, c, Data);
    if LoadState(JobRun(env, JobState(c, []), reqs).log, infraRequired).Accepted() {
      AcceptedIsEarned(env, c, reqs, infraRequired);
      assert false;
    }
  }

  lemma {:induction false} OwnersListed(ips: seq<InfraProviderParty>, policies: map<string, string>, i: nat)
    requires i < |ips| && ips[i].id != ""
    ensures OwnerFrom(policies, ips[i].id) in InfraOwners(ips, policies)
  {
    var n := |ips| - 1;
    if i < n {
      OwnersListed(ips[..n], policies, i);
    }
  }

  /** Where infra approval is required, a job with an infra nobody is known to own is never accepted. */
  lemma {:induction false} OwnerlessNeverAccepted(env: JobEnv, c: Contract, reqs: seq<TimedRequest>, i: nat)
    requires i < |c.infraProviders| && c.infraProviders[i].id != ""
    requires !OwnerFrom(env.policies, c.infraProviders[i].id).known
    ensures !LoadState(JobRun(env, JobState(c, []), reqs).log, true).Accepted()
  {
    hide JobRun, LoadState;
    OwnersListed(c.infraProviders, env.policies, i);
    var owners := InfraOwners(c.infraProviders, env.policies);
    var k :| 0 <= k < |owners| && owners[k] == OwnerFrom(env.policies, c.infraProviders[i].id);
    var key := (Infra, owners[k].providerId, owners[k].infraId);
    assert KeysOf(env, c, Infra)[k] == key && key in KeysOf(env, c, Infra);
    if LoadState(JobRun(env, JobState(c, []), reqs).log, true).Accepted() {
      AcceptedIsEarned(env, c, reqs, true);
      assert false;
    }
  }
}
