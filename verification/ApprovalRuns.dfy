/**
 * Runs of approval calls on one job: what a call leaves on every key, and exactly when the
 * order and the number of the calls do not matter. Coverage says what "accepted" rests on.
 */
module ApprovalRuns {
  import opened Wrappers
  import opened Contracts
  import Signing
  import SigningRuns
  import opened JobApproval

  // ---- the fold

  lemma {:induction false} LastOfConcat(a: seq<AuditEntry>, b: seq<AuditEntry>, key: AuditKey)
    ensures Last(a + b, key) == if Last(b, key).Some? then Last(b, key) else Last(a, key)
  {
    if b == [] {
      assert a + b == a;
    } else {
      var n := |b| - 1;
      assert (a + b)[..|a + b| - 1] == a + b[..n];
      LastOfConcat(a, b[..n], key);
    }
  }

  /** The current entries are exactly the last entry of every key, one per key. */
  lemma CurrentHolds(log: seq<AuditEntry>, e: AuditEntry)
    ensures e in Current(log) <==> Last(log, KeyOf(e)) == Some(e)
  {
    var keys, cur := FirstSeen(log), Current(log);
    forall k: AuditKey ensures k in keys <==> Last(log, k).Some? { SeenIffLast(log, k); }
    if e in cur {
      var i :| 0 <= i < |cur| && cur[i] == e;
      SeenIffLast(log, keys[i]);
    }
    if Last(log, KeyOf(e)) == Some(e) {
      var i :| 0 <= i < |keys| && keys[i] == KeyOf(e);
      assert cur[i] == e;
    }
  }

  lemma {:induction false} FirstSeenDistinct(log: seq<AuditEntry>)
    ensures forall i, j :: 0 <= i < j < |FirstSeen(log)| ==> FirstSeen(log)[i] != FirstSeen(log)[j]
  {
    if log != [] {
      FirstSeenDistinct(log[..|log| - 1]);
    }
  }

  lemma CheckedIffLast(log: seq<AuditEntry>, kind: Kind, key: AuditKey)
    ensures key in CheckedKeys(log, kind) <==> key.0 == kind && Last(log, key).Some?
  {
    if key in CheckedKeys(log, kind) {
      var e :| e in Current(log) && e.kind == kind && KeyOf(e) == key;
      CurrentHolds(log, e);
    }
    if key.0 == kind && Last(log, key).Some? {
      SeenIffLast(log, key);
      CurrentHolds(log, Last(log, key).value);
    }
  }

  lemma {:induction false} OfKindHolds(es: seq<AuditEntry>, kind: Kind, e: AuditEntry)
    ensures e in OfKind(es, kind) <==> e in es && e.kind == kind
  {
    if es != [] {
      OfKindHolds(es[..|es| - 1], kind, e);
      assert es == es[..|es| - 1] + [es[|es| - 1]];
    }
  }

  ghost predicate AllAccepted(log: seq<AuditEntry>, kind: Kind) {
    && (exists key: AuditKey :: key.0 == kind && Last(log, key).Some?)
    && (forall key: AuditKey :: key.0 == kind && Last(log, key).Some? ==> Last(log, key).value.accepted)
  }

  /** Some key of the kind has a latest entry that is not accepted. */
  ghost predicate SomeRejected(log: seq<AuditEntry>, kind: Kind) {
    exists key: AuditKey :: key.0 == kind && Last(log, key).Some? && !Last(log, key).value.accepted
  }

  /**
   * A side is approved exactly when it has been checked and every key's latest entry is accepted,
   * rejected exactly when some key's is not, and pending exactly when nothing of it was checked.
   */
  lemma StandingMeans(log: seq<AuditEntry>, kind: Kind)
    ensures var standing := OverallStatus(OfKind(Current(log), kind));
      && (standing == Approved <==> AllAccepted(log, kind))
      && (standing == Rejected <==> SomeRejected(log, kind))
      && (standing == Pending <==> forall key: AuditKey :: key.0 == kind ==> Last(log, key).None?)
  {
    hide Current, OfKind, Last;
    var es := OfKind(Current(log), kind);
    forall e: AuditEntry ensures e in es <==> Last(log, KeyOf(e)) == Some(e) && e.kind == kind {
      OfKindHolds(Current(log), kind, e);
      CurrentHolds(log, e);
    }
    forall key: AuditKey | key.0 == kind && Last(log, key).Some?
      ensures KeyOf(Last(log, key).value) == key && Last(log, key).value in es
    {
      SeenIffLast(log, key);
    }
    if es != [] {
      assert es[0] in es;
      assert Last(log, KeyOf(es[0])).Some?;
    }
    if AllAccepted(log, kind) {
      forall i | 0 <= i < |es| ensures es[i].accepted {
        assert es[i] in es;
      }
    }
    if OverallStatus(es) == Approved {
      assert forall e <- es :: e.accepted;
    }
    if OverallStatus(es) == Rejected {
      var i :| 0 <= i < |es| && !es[i].accepted;
      assert es[i] in es;
      assert Last(log, KeyOf(es[i])) == Some(es[i]);
    }
  }

  /** The job is accepted when both sides it needs are approved, rejected when one of them is, and pending otherwise. */
  lemma AcceptedMeans(log: seq<AuditEntry>, infraRequired: bool)
    ensures var st := LoadState(log, infraRequired);
      && (st.Accepted() <==> AllAccepted(log, Data) && (infraRequired ==> AllAccepted(log, Infra)))
      && (st.Approval() == Approved <==> st.Accepted())
      && (st.Approval() == Rejected <==> SomeRejected(log, Data) || (infraRequired && SomeRejected(log, Infra)))
  {
    hide AllAccepted, SomeRejected, Current, OfKind, OverallStatus;
    StandingMeans(log, Data);
    StandingMeans(log, Infra);
  }

  // ---- what one call writes

  function LastItem(items: seq<Item>, key: AuditKey): Option<Item> {
    if items == [] then None
    else if ItemKey(items[|items| - 1]) == key then Some(items[|items| - 1])
    else LastItem(items[..|items| - 1], key)
  }

  /** The caller's own result for key; the last one, when several of their items share it. */
  function LastOwn(items: seq<Item>, key: AuditKey): Option<AuditEntry> {
    if items == [] then None
    else
      var it := items[|items| - 1];
      if it.own && ItemKey(it) == key then Some(it.result) else LastOwn(items[..|items| - 1], key)
  }

  ghost predicate Coherent(items: seq<Item>) {
    forall i :: 0 <= i < |items| ==> KeyOf(items[i].result) == KeyOf(items[i].awaiting)
  }

  lemma {:induction false} LastItemFound(items: seq<Item>, key: AuditKey)
    ensures LastItem(items, key).Some? <==> exists i :: 0 <= i < |items| && ItemKey(items[i]) == key
    ensures LastItem(items, key).Some? ==>
      LastItem(items, key).value in items && ItemKey(LastItem(items, key).value) == key
  {
    if items != [] {
      var n := |items| - 1;
      LastItemFound(items[..n], key);
      if ItemKey(items[n]) != key && LastItem(items[..n], key).Some? {
        var i :| 0 <= i < n && ItemKey(items[..n][i]) == key;
        assert ItemKey(items[i]) == key;
      }
    }
  }

  lemma {:induction false} LastOwnFound(items: seq<Item>, key: AuditKey)
    ensures LastOwn(items, key).Some? <==> OwnsKey(items, key)
    ensures LastOwn(items, key).Some? ==>
      LastItem(items, key).Some? &&
      exists it <- items :: it.own && ItemKey(it) == key && it.result == LastOwn(items, key).value
    ensures LastItem(items, key).Some? && LastItem(items, key).value.own ==>
      LastOwn(items, key) == Some(LastItem(items, key).value.result)
  {
    if items != [] {
      var n := |items| - 1;
      LastOwnFound(items[..n], key);
      assert items == items[..n] + [items[n]];
      if OwnsKey(items, key) {
        var i :| 0 <= i < |items| && items[i].own && ItemKey(items[i]) == key;
        assert i < n ==> items[..n][i] == items[i];
      }
      if OwnsKey(items[..n], key) {
        var i :| 0 <= i < n && items[..n][i].own && ItemKey(items[..n][i]) == key;
        assert items[i] == items[..n][i];
      }
    }
  }

  /** The last entry a call writes for a key: the caller's own, or for a new key the last item's. */
  lemma {:induction false} EntriesLast(items: seq<Item>, checked: set<AuditKey>, key: AuditKey)
    requires Coherent(items)
    ensures Last(Entries(items, checked), key) ==
      if key in checked then LastOwn(items, key)
      else match LastItem(items, key)
        case None => None
        case Some(it) => Some(if it.own then it.result else it.awaiting)
  {
    if items != [] {
      var n := |items| - 1;
      EntriesLast(items[..n], checked, key);
      var tail := if items[n].own then [items[n].result]
                  else if ItemKey(items[n]) in checked then [] else [items[n].awaiting];
      LastOfConcat(Entries(items[..n], checked), tail, key);
      assert tail != [] ==> tail[..0] == [];
    }
  }

  lemma ItemsCoherent(env: JobEnv, c: Contract, call: Call)
    ensures Coherent(ItemsOf(env, c, call))
    ensures forall it <- ItemsOf(env, c, call) :: ItemKey(it).0 == KindOf(call)
  {
  }

  /** Where one recorded call leaves the latest entry of every key. */
  function StatusAfter(before: Option<AuditEntry>, items: seq<Item>, key: AuditKey): Option<AuditEntry> {
    if before.Some? then
      if LastOwn(items, key).Some? then LastOwn(items, key) else before
    else
      match LastItem(items, key)
      case None => None
      case Some(it) => Some(if it.own then it.result else it.awaiting)
  }

  lemma RecordedStatus(env: JobEnv, s: JobState, call: Call, now: Time, key: AuditKey)
    requires Refusal(env, s, call).None?
    ensures Last(Approve(env, s, call, now).0.log, key) ==
            StatusAfter(Last(s.log, key), ItemsOf(env, s.contract, call), key)
  {
    hide Signed, OwnEntries, ItemsOf;
    var items := ItemsOf(env, s.contract, call);
    var checked := CheckedKeys(s.log, KindOf(call));
    ItemsCoherent(env, s.contract, call);
    EntriesLast(items, checked, key);
    LastOfConcat(s.log, Entries(items, checked), key);
    LastItemFound(items, key);
    LastOwnFound(items, key);
    CheckedIffLast(s.log, KindOf(call), key);
  }

  /** A call leaves the current entry of every key its caller does not own as it was, once there is one. */
  lemma OthersEntriesStand(env: JobEnv, s: JobState, call: Call, now: Time, key: AuditKey)
    requires !OwnsKey(ItemsOf(env, s.contract, call), key) && Last(s.log, key).Some?
    ensures Last(Approve(env, s, call, now).0.log, key) == Last(s.log, key)
  {
    hide Signed, OwnEntries, ItemsOf, Refusal;
    if Refusal(env, s, call).None? {
      RecordedStatus(env, s, call, now, key);
      LastOwnFound(ItemsOf(env, s.contract, call), key);
    }
  }

  // ---- calls see the same items throughout a run

  /** d is c with other signatures on its parties. */
  ghost predicate SameButSigned(c: Contract, d: Contract) {
    && SigningRuns.OnlySignaturesDiffer(c.dataProviders, d.dataProviders)
    && |d.infraProviders| == |c.infraProviders|
    && (forall i :: 0 <= i < |c.infraProviders| ==>
          d.infraProviders[i] == c.infraProviders[i].(signature := d.infraProviders[i].signature))
    && d == c.(dataProviders := d.dataProviders, infraProviders := d.infraProviders)
  }

  lemma SignedSame(env: JobEnv, s: JobState, call: Call, now: Time)
    ensures SameButSigned(s.contract, Signed(env, s, call, now))
  {
  }

  lemma SameButSignedComposes(c: Contract, d: Contract, e: Contract)
    requires SameButSigned(c, d) && SameButSigned(d, e)
    ensures SameButSigned(c, e)
  {
  }

  lemma {:induction false} SameOwners(x: seq<InfraProviderParty>, y: seq<InfraProviderParty>,
                                      policies: map<string, string>)
    requires |x| == |y| && forall i :: 0 <= i < |x| ==> x[i].id == y[i].id
    ensures InfraOwners(x, policies) == InfraOwners(y, policies)
  {
    if x != [] {
      SameOwners(x[..|x| - 1], y[..|y| - 1], policies);
    }
  }

  lemma SameItems(env: JobEnv, c: Contract, d: Contract, call: Call)
    requires SameButSigned(c, d)
    ensures ItemsOf(env, d, call) == ItemsOf(env, c, call)
  {
    if call.DataCall? {
      var x, y := ItemsOf(env, c, call), ItemsOf(env, d, call);
      forall i | 0 <= i < |x| ensures x[i] == y[i] {
        assert d.dataProviders[i] == c.dataProviders[i].(signature := d.dataProviders[i].signature);
      }
    } else {
      SameOwners(c.infraProviders, d.infraProviders, env.policies);
    }
  }

  lemma SameHashed(c: Contract, d: Contract)
    requires SameButSigned(c, d)
    ensures HashContract(d) == HashContract(c) && Signing.NeedsJobApproval(d) == Signing.NeedsJobApproval(c)
  {
    assert BlankDataProviders(d.dataProviders) == BlankDataProviders(c.dataProviders);
    assert BlankInfraProviders(d.infraProviders) == BlankInfraProviders(c.infraProviders);
    assert forall i :: 0 <= i < |c.infraProviders| ==> d.infraProviders[i].id == c.infraProviders[i].id;
  }

  /** The caller's own results, in contract order. */
  function OwnResults(items: seq<Item>): seq<AuditEntry> {
    if items == [] then []
    else OwnResults(items[..|items| - 1]) + (if items[|items| - 1].own then [items[|items| - 1].result] else [])
  }

  lemma FilterConcat(a: seq<AuditEntry>, b: seq<AuditEntry>, keep: set<AuditKey>)
    requires |b| <= 1
    ensures Filter(a + b, keep) == Filter(a, keep) + Filter(b, keep)
  {
    if b == [] {
      assert a + b == a;
    } else {
      assert (a + b)[..|a + b| - 1] == a;
      assert b[..0] == [];
    }
  }

  /** Once every key the caller owns has been checked, their own entries are just their results. */
  lemma {:induction false} OwnEntriesAreResults(items: seq<Item>, checked: set<AuditKey>, keep: set<AuditKey>)
    requires Coherent(items)
    requires forall it <- items :: (it.own ==> ItemKey(it) in keep) && (ItemKey(it) in keep ==> ItemKey(it) in checked)
    ensures Filter(Entries(items, checked), keep) == OwnResults(items)
  {
    if items != [] {
      var n := |items| - 1;
      assert items[n] in items;
      OwnEntriesAreResults(items[..n], checked, keep);
      var tail := if items[n].own then [items[n].result]
                  else if ItemKey(items[n]) in checked then [] else [items[n].awaiting];
      FilterConcat(Entries(items[..n], checked), tail, keep);
      assert tail != [] ==> tail[..0] == [];
    }
  }

  /** Before that, their results are among them. */
  lemma {:induction false} ResultsAreOwnEntries(items: seq<Item>, checked: set<AuditKey>, keep: set<AuditKey>,
                                                e: AuditEntry)
    requires Coherent(items) && forall it <- items :: it.own ==> ItemKey(it) in keep
    ensures e in OwnResults(items) ==> e in Filter(Entries(items, checked), keep)
  {
    if items != [] {
      var n := |items| - 1;
      assert items[n] in items;
      ResultsAreOwnEntries(items[..n], checked, keep, e);
      var tail := if items[n].own then [items[n].result]
                  else if ItemKey(items[n]) in checked then [] else [items[n].awaiting];
      FilterConcat(Entries(items[..n], checked), tail, keep);
      assert tail != [] ==> tail[..0] == [];
    }
  }

  lemma {:induction false} OwnersHaveResults(items: seq<Item>)
    ensures OwnsAny(items) ==> OwnResults(items) != []
  {
    if items != [] {
      var n := |items| - 1;
      OwnersHaveResults(items[..n]);
      if OwnsAny(items) && !items[n].own {
        var i :| 0 <= i < |items| && items[i].own;
        assert items[..n][i].own;
      }
    }
  }

  /** Why a call is refused when every key of its kind has been checked before. */
  function SteadyRefusal(env: JobEnv, c: Contract, call: Call): Option<string> {
    var items, caller := ItemsOf(env, c, call), call.caller;
    if !Signing.NeedsJobApproval(c) then Some("NO_APPROVAL_NEEDED")
    else if !OwnsAny(items) then
      Some(if call.DataCall? then "NOT_A_DATA_PROVIDER_ON_CONTRACT" else "NOT_AN_INFRA_PROVIDER_ON_CONTRACT")
    else if call.hash == NoHash || call.value == NoValue then Some("MISSING_FIELDS")
    else if call.DataCall? && OverallStatus(OwnResults(items)) == Approved
         && !SubmittedSignatureOk(env.authority, c, caller.Username(), call.hash, call.value)
    then Some("INVALID_SIGNATURE")
    else None
  }

  /** Every item of the contract's that a call of this kind is about has an entry. */
  ghost predicate AllChecked(env: JobEnv, c: Contract, log: seq<AuditEntry>, kind: Kind) {
    forall call: Call | KindOf(call) == kind :: forall it <- ItemsOf(env, c, call) :: Last(log, ItemKey(it)).Some?
  }

  /** A call on a job all of whose keys are checked is refused exactly as SteadyRefusal says. */
  lemma CheckedRefusal(env: JobEnv, s: JobState, call: Call)
    requires AllChecked(env, s.contract, s.log, KindOf(call))
    ensures Refusal(env, s, call) == SteadyRefusal(env, s.contract, call)
  {
    hide ItemsOf, Signing.NeedsJobApproval, CheckedKeys, SubmittedSignatureOk;
    var items, checked := ItemsOf(env, s.contract, call), CheckedKeys(s.log, KindOf(call));
    ItemsCoherent(env, s.contract, call);
    forall it | it in items ensures (it.own ==> ItemKey(it) in OwnKeys(items)) && ItemKey(it) in checked {
      var i :| 0 <= i < |items| && items[i] == it;
      CheckedIffLast(s.log, KindOf(call), ItemKey(it));
    }
    OwnEntriesAreResults(items, checked, OwnKeys(items));
  }

  /** A call that would be recorded then is recorded before, too. */
  lemma SteadyIsRecorded(env: JobEnv, s: JobState, call: Call)
    requires SteadyRefusal(env, s.contract, call).None?
    ensures Refusal(env, s, call).None?
  {
    hide ItemsOf, Signing.NeedsJobApproval, CheckedKeys, SubmittedSignatureOk;
    var items, checked := ItemsOf(env, s.contract, call), CheckedKeys(s.log, KindOf(call));
    ItemsCoherent(env, s.contract, call);
    OwnersHaveResults(items);
    var own, results := OwnEntries(env, s, call), OwnResults(items);
    forall i | 0 <= i < |results| ensures results[i] in own {
      ResultsAreOwnEntries(items, checked, OwnKeys(items), results[i]);
    }
  }

  lemma RefusalFixed(env: JobEnv, s: JobState, t: JobState, call: Call)
    requires SameButSigned(s.contract, t.contract)
    requires forall key: AuditKey :: key.0 == KindOf(call) ==> Last(t.log, key) == Last(s.log, key)
    ensures Refusal(env, t, call) == Refusal(env, s, call)
  {
    hide ItemsOf, CheckedKeys, Signing.NeedsJobApproval, HashContract, SameButSigned;
    SameItems(env, s.contract, t.contract, call);
    SameHashed(s.contract, t.contract);
    var kind := KindOf(call);
    assert CheckedKeys(t.log, kind) == CheckedKeys(s.log, kind) by {
      forall key: AuditKey ensures key in CheckedKeys(t.log, kind) <==> key in CheckedKeys(s.log, kind) {
        CheckedIffLast(t.log, kind, key);
        CheckedIffLast(s.log, kind, key);
      }
    }
    SameSubmission(env.authority, s.contract, t.contract, call);
  }

  lemma SameSubmission(a: Signing.Authority, c: Contract, d: Contract, call: Call)
    requires SameButSigned(c, d)
    ensures SubmittedSignatureOk(a, d, call.caller.Username(), call.hash, call.value)
         == SubmittedSignatureOk(a, c, call.caller.Username(), call.hash, call.value)
  {
    hide HashContract;
    SameHashed(c, d);
  }

  lemma SteadyFixed(env: JobEnv, c: Contract, d: Contract, call: Call)
    requires SameButSigned(c, d)
    ensures SteadyRefusal(env, d, call) == SteadyRefusal(env, c, call)
  {
    hide ItemsOf, Signing.NeedsJobApproval, HashContract, SubmittedSignatureOk;
    SameItems(env, c, d, call);
    SameHashed(c, d);
    SameSubmission(env.authority, c, d, call);
  }

  // ---- runs

  type TimedCall = (Call, Time)

  function ApproveAll(env: JobEnv, s: JobState, calls: seq<TimedCall>): JobState {
    if calls == [] then s
    else
      var n := |calls| - 1;
      Approve(env, ApproveAll(env, s, calls[..n]), calls[n].0, calls[n].1).0
  }

  ghost function CallSet(calls: seq<TimedCall>): set<Call> {
    set i | 0 <= i < |calls| :: calls[i].0
  }

  lemma CallSetGrows(calls: seq<TimedCall>, x: TimedCall)
    ensures CallSet(calls + [x]) == CallSet(calls) + {x.0}
  {
    forall c ensures c in CallSet(calls + [x]) <==> c in CallSet(calls) + {x.0} {
      if c in CallSet(calls) {
        var i :| 0 <= i < |calls| && calls[i].0 == c;
        assert (calls + [x])[i].0 == c;
      }
      assert (calls + [x])[|calls|].0 == x.0;
    }
  }

  /** Made on the job as it stands, x is recorded. */
  ghost predicate Opens(env: JobEnv, s: JobState, x: Call, key: AuditKey) {
    KindOf(x) == key.0 && Refusal(env, s, x).None?
  }

  /** What x leaves on key when it is the first of its kind to be recorded. */
  ghost function Opened(env: JobEnv, s: JobState, x: Call, key: AuditKey): Option<AuditEntry> {
    StatusAfter(Last(s.log, key), ItemsOf(env, s.contract, x), key)
  }

  /** x's caller owns key, and x is recorded whenever it is made. */
  ghost predicate Settles(env: JobEnv, s: JobState, x: Call, key: AuditKey) {
    && KindOf(x) == key.0 && SteadyRefusal(env, s.contract, x).None?
    && LastOwn(ItemsOf(env, s.contract, x), key).Some?
  }

  /** What x leaves on key once all keys of its kind are checked. */
  ghost function Settled(env: JobEnv, s: JobState, x: Call, key: AuditKey): Option<AuditEntry> {
    LastOwn(ItemsOf(env, s.contract, x), key)
  }

  /** The first recorded call of a kind writes "awaiting" entries; the later ones only their callers' results. */
  datatype Progress = Progress(first: Option<Call>, status: Option<AuditEntry>)

  ghost function Outcome(env: JobEnv, s: JobState, calls: seq<TimedCall>, key: AuditKey): Progress {
    if calls == [] then Progress(None, Last(s.log, key))
    else
      var o, x := Outcome(env, s, calls[..|calls| - 1], key), calls[|calls| - 1].0;
      if o.first.None? then if Opens(env, s, x, key) then Progress(Some(x), Opened(env, s, x, key)) else o
      else if Settles(env, s, x, key) then o.(status := Settled(env, s, x, key)) else o
  }

  /** Calls of one kind leave the other kind's entries alone. */
  lemma OtherKindStands(env: JobEnv, t: JobState, x: Call, now: Time, key: AuditKey)
    requires KindOf(x) != key.0
    ensures Last(Approve(env, t, x, now).0.log, key) == Last(t.log, key)
  {
    hide ItemsOf, Refusal, Signed, OwnEntries;
    if Refusal(env, t, x).None? {
      var items := ItemsOf(env, t.contract, x);
      RecordedStatus(env, t, x, now, key);
      ItemsCoherent(env, t.contract, x);
      LastItemFound(items, key);
      LastOwnFound(items, key);
    }
  }

  lemma {:induction false} SameKeys(x: seq<Item>, y: seq<Item>)
    requires |x| == |y| && forall i :: 0 <= i < |x| ==> x[i].awaiting == y[i].awaiting
    ensures forall it <- x :: exists jt <- y :: ItemKey(jt) == ItemKey(it)
  {
    forall it | it in x ensures exists jt <- y :: ItemKey(jt) == ItemKey(it) {
      var i :| 0 <= i < |x| && x[i] == it;
      assert y[i] in y;
    }
  }

  /** All calls of a kind are about the same items, and would write the same "awaiting" for them. */
  lemma SameAwaiting(env: JobEnv, c: Contract, x: Call, y: Call)
    requires KindOf(x) == KindOf(y)
    ensures var p, q := ItemsOf(env, c, x), ItemsOf(env, c, y);
      |p| == |q| && forall i :: 0 <= i < |p| ==> p[i].awaiting == q[i].awaiting
  {
    hide InfraOwners;
  }

  /** A recorded call leaves no key of its kind unchecked. */
  lemma RecordedCovers(env: JobEnv, t: JobState, x: Call, now: Time)
    requires Refusal(env, t, x).None?
    ensures AllChecked(env, t.contract, Approve(env, t, x, now).0.log, KindOf(x))
  {
    hide ItemsOf, Refusal, Signed, OwnEntries, Approve;
    var log, q := Approve(env, t, x, now).0.log, ItemsOf(env, t.contract, x);
    forall call: Call, it | KindOf(call) == KindOf(x) && it in ItemsOf(env, t.contract, call)
      ensures Last(log, ItemKey(it)).Some?
    {
      SameAwaiting(env, t.contract, call, x);
      SameKeys(ItemsOf(env, t.contract, call), q);
      RecordedStatus(env, t, x, now, ItemKey(it));
      LastItemFound(q, ItemKey(it));
    }
  }

  lemma StaysChecked(env: JobEnv, t: JobState, x: Call, now: Time, kind: Kind)
    requires AllChecked(env, t.contract, t.log, kind)
    ensures AllChecked(env, t.contract, Approve(env, t, x, now).0.log, kind)
  {
    hide ItemsOf, Refusal, Signed, OwnEntries;
    forall call: Call, it | KindOf(call) == kind && it in ItemsOf(env, t.contract, call)
      ensures Last(Approve(env, t, x, now).0.log, ItemKey(it)).Some?
    {
      if Refusal(env, t, x).None? {
        RecordedStatus(env, t, x, now, ItemKey(it));
      }
    }
  }

  lemma CheckedFixed(env: JobEnv, c: Contract, d: Contract, log: seq<AuditEntry>, kind: Kind)
    requires SameButSigned(c, d) && AllChecked(env, c, log, kind)
    ensures AllChecked(env, d, log, kind)
  {
    hide ItemsOf, SameButSigned;
    forall call: Call | KindOf(call) == kind ensures ItemsOf(env, d, call) == ItemsOf(env, c, call) {
      SameItems(env, c, d, call);
    }
  }

  lemma ApproveOnlySigns(env: JobEnv, t: JobState, x: Call, now: Time)
    ensures SameButSigned(t.contract, Approve(env, t, x, now).0.contract)
  {
    hide Refusal, Signed, ItemsOf;
    SignedSame(env, t, x, now);
  }

  /** Where a run stands with respect to one kind of key. */
  ghost predicate Follows(env: JobEnv, s: JobState, t: JobState, o: Progress, key: AuditKey) {
    && SameButSigned(s.contract, t.contract)
    && Last(t.log, key) == o.status
    && (o.first.None? ==> forall k: AuditKey :: k.0 == key.0 ==> Last(t.log, k) == Last(s.log, k))
    && (o.first.Some? ==> AllChecked(env, t.contract, t.log, key.0))
  }

  lemma StepFollows(env: JobEnv, s: JobState, t: JobState, o: Progress, x: Call, now: Time, key: AuditKey)
    requires Follows(env, s, t, o, key)
    ensures var o' := if o.first.None?
        then if Opens(env, s, x, key) then Progress(Some(x), Opened(env, s, x, key)) else o
        else if Settles(env, s, x, key) then o.(status := Settled(env, s, x, key)) else o;
      Follows(env, s, Approve(env, t, x, now).0, o', key)
  {
    hide Refusal, SteadyRefusal, ItemsOf, AllChecked, SameButSigned, Approve;
    var u := Approve(env, t, x, now).0;
    ApproveOnlySigns(env, t, x, now);
    SameButSignedComposes(s.contract, t.contract, u.contract);
    SameItems(env, s.contract, t.contract, x);
    if KindOf(x) != key.0 {
      forall k: AuditKey | k.0 == key.0 ensures Last(u.log, k) == Last(t.log, k) {
        OtherKindStands(env, t, x, now, k);
      }
    } else if o.first.None? {
      RefusalFixed(env, s, t, x);
      if Refusal(env, t, x).None? {
        RecordedStatus(env, t, x, now, key);
        RecordedCovers(env, t, x, now);
        CheckedFixed(env, t.contract, u.contract, u.log, key.0);
      } else {
        RefusedChangesNothing(env, t, x, now);
      }
    } else {
      CheckedRefusal(env, t, x);
      SteadyFixed(env, s.contract, t.contract, x);
      if Refusal(env, t, x).None? {
        RecordedStatus(env, t, x, now, key);
        ItemIsChecked(env, t, x, key);
      } else {
        RefusedChangesNothing(env, t, x, now);
      }
    }
    if o.first.Some? {
      StaysChecked(env, t, x, now, key.0);
      CheckedFixed(env, t.contract, u.contract, u.log, key.0);
    }
  }

  lemma RefusedChangesNothing(env: JobEnv, t: JobState, x: Call, now: Time)
    requires Refusal(env, t, x).Some?
    ensures Approve(env, t, x, now).0 == t
  {
    hide Refusal;
  }

  lemma ItemIsChecked(env: JobEnv, t: JobState, x: Call, key: AuditKey)
    requires AllChecked(env, t.contract, t.log, KindOf(x))
    ensures var items := ItemsOf(env, t.contract, x);
      StatusAfter(Last(t.log, key), items, key) ==
      if LastOwn(items, key).Some? then LastOwn(items, key) else Last(t.log, key)
  {
    hide ItemsOf;
    var items := ItemsOf(env, t.contract, x);
    LastItemFound(items, key);
    LastOwnFound(items, key);
  }

  /** Runs leave on key what Outcome says. */
  lemma {:induction false} RunFollows(env: JobEnv, s: JobState, calls: seq<TimedCall>, key: AuditKey)
    ensures Follows(env, s, ApproveAll(env, s, calls), Outcome(env, s, calls, key), key)
  {
    hide SteadyRefusal, Refusal, AllChecked, StatusAfter;
    if calls == [] {
      SameAsItself(s.contract);
    } else {
      hide Approve;
      var n := |calls| - 1;
      RunFollows(env, s, calls[..n], key);
      StepFollows(env, s, ApproveAll(env, s, calls[..n]), Outcome(env, s, calls[..n], key),
                  calls[n].0, calls[n].1, key);
    }
  }

  lemma SameAsItself(c: Contract)
    ensures SameButSigned(c, c)
  {
  }

  // ---- confluence

  /**
   * What order and repetition cannot change, judged call by call before the run: the callers who
   * settle key agree on it; a caller who alone settles it leaves it so even when theirs is the
   * first call; and when nobody settles it, every possible first call leaves it alike.
   */
  ghost predicate OrderFree(env: JobEnv, s: JobState, calls: set<Call>, key: AuditKey) {
    && (forall x <- calls, y <- calls :: Settles(env, s, x, key) && Settles(env, s, y, key) ==>
          Settled(env, s, x, key) == Settled(env, s, y, key))
    && (forall x <- calls :: Settles(env, s, x, key) && (forall y <- calls :: Settles(env, s, y, key) ==> y == x) ==>
          !HeldBack(env, s, x, key))
    && ((forall x <- calls :: !Settles(env, s, x, key)) ==>
          forall f <- calls, g <- calls :: Opens(env, s, f, key) && Opens(env, s, g, key) ==>
            Opened(env, s, f, key) == Opened(env, s, g, key))
  }

  /** key was never checked, and the last item that carries it is not the caller's. */
  ghost predicate HeldBack(env: JobEnv, s: JobState, x: Call, key: AuditKey) {
    var items := ItemsOf(env, s.contract, x);
    Last(s.log, key).None? && LastItem(items, key).Some? && !LastItem(items, key).value.own
  }

  /** Two runs of the same calls, in any order and any number of times, agree on key. */
  ghost predicate Confluent(env: JobEnv, s: JobState, calls: set<Call>, key: AuditKey) {
    forall xs: seq<TimedCall>, ys: seq<TimedCall> :: CallSet(xs) == calls && CallSet(ys) == calls ==>
      Last(ApproveAll(env, s, xs).log, key) == Last(ApproveAll(env, s, ys).log, key)
  }

  /** A caller's result is never an "awaiting" entry. */
  lemma ResultsAreNotAwaiting(env: JobEnv, c: Contract, x: Call)
    ensures forall it <- ItemsOf(env, c, x), jt <- ItemsOf(env, c, x) :: it.result != jt.awaiting
  {
    hide InfraOwners, InDataCatalogue, CatalogueHas;
    var items := ItemsOf(env, c, x);
    forall it | it in items ensures AwaitingCall !in it.result.reasons && NoKnownProvider !in it.result.reasons {
    }
    forall jt | jt in items ensures AwaitingCall in jt.awaiting.reasons || NoKnownProvider in jt.awaiting.reasons {
      assert jt.awaiting.reasons[0] == AwaitingCall || jt.awaiting.reasons[0] == NoKnownProvider;
    }
  }

  /** A settling call made first leaves its result, unless it is held back. */
  lemma OpeningSettles(env: JobEnv, s: JobState, x: Call, key: AuditKey)
    requires Settles(env, s, x, key)
    ensures Opens(env, s, x, key)
    ensures Opened(env, s, x, key) == Settled(env, s, x, key) <==> !HeldBack(env, s, x, key)
  {
    hide ItemsOf, SteadyRefusal, Refusal;
    var items := ItemsOf(env, s.contract, x);
    SteadyIsRecorded(env, s, x);
    LastOwnFound(items, key);
    LastItemFound(items, key);
    ResultsAreNotAwaiting(env, s.contract, x);
  }

  /** How a run's outcome depends on which calls it makes. */
  ghost predicate Shaped(env: JobEnv, s: JobState, calls: set<Call>, o: Progress, key: AuditKey) {
    match o.first
    case None => o.status == Last(s.log, key) && forall f <- calls :: !Opens(env, s, f, key)
    case Some(f) =>
      && f in calls && Opens(env, s, f, key)
      && ((exists x <- calls :: Settles(env, s, x, key) && o.status == Settled(env, s, x, key)) ||
          (o.status == Opened(env, s, f, key) && forall x <- calls :: Settles(env, s, x, key) ==> x == f))
  }

  lemma {:induction false} OutcomeShaped(env: JobEnv, s: JobState, calls: seq<TimedCall>, key: AuditKey)
    ensures Shaped(env, s, CallSet(calls), Outcome(env, s, calls, key), key)
  {
    hide Opens, Settles, Opened, Settled;
    if calls == [] {
    } else {
      var init, x := calls[..|calls| - 1], calls[|calls| - 1];
      OutcomeShaped(env, s, init, key);
      CallSetGrows(init, x);
      assert calls == init + [x];
      if Settles(env, s, x.0, key) {
        OpeningSettles(env, s, x.0, key);
      }
      forall f <- CallSet(init) | Settles(env, s, f, key) ensures Opens(env, s, f, key) {
        OpeningSettles(env, s, f, key);
      }
    }
  }

  lemma OrderFreeIsConfluent(env: JobEnv, s: JobState, calls: set<Call>, o: Progress, p: Progress, key: AuditKey)
    requires OrderFree(env, s, calls, key) && Shaped(env, s, calls, o, key) && Shaped(env, s, calls, p, key)
    ensures o.status == p.status
  {
    hide Opens, Settles, Opened, Settled, HeldBack;
    if o.first.Some? && p.first.Some? {
      forall f <- calls | Settles(env, s, f, key)
        ensures Opened(env, s, f, key) == Settled(env, s, f, key) <==> !HeldBack(env, s, f, key)
      {
        OpeningSettles(env, s, f, key);
      }
    }
  }

  lemma {:induction false} SomeOrder(calls: set<Call>) returns (xs: seq<TimedCall>)
    ensures CallSet(xs) == calls
  {
    if calls == {} {
      xs := [];
    } else {
      var x :| x in calls;
      var rest := SomeOrder(calls - {x});
      xs := rest + [(x, 0)];
      CallSetGrows(rest, (x, 0));
      assert calls == calls - {x} + {x};
    }
  }

  /** Making a settling call twice at the end settles key, whatever came before. */
  lemma EndsSettled(env: JobEnv, s: JobState, calls: seq<TimedCall>, x: TimedCall, key: AuditKey)
    requires Settles(env, s, x.0, key)
    ensures Last(ApproveAll(env, s, calls + [x] + [x]).log, key) == Settled(env, s, x.0, key)
    ensures CallSet(calls + [x] + [x]) == CallSet(calls) + {x.0}
  {
    hide Opens, Settles, Opened, Settled, ApproveAll;
    OpeningSettles(env, s, x.0, key);
    assert (calls + [x])[..|calls|] == calls && (calls + [x] + [x])[..|calls| + 1] == calls + [x];
    RunFollows(env, s, calls + [x] + [x], key);
    CallSetGrows(calls, x);
    CallSetGrows(calls + [x], x);
  }

  /** A run that starts with a recorded call, and settles nothing else, leaves what that call opened with. */
  lemma {:induction false} StartsOpened(env: JobEnv, s: JobState, x: TimedCall, rest: seq<TimedCall>, key: AuditKey)
    requires Opens(env, s, x.0, key) && forall y <- CallSet(rest) :: !Settles(env, s, y, key)
    ensures Outcome(env, s, [x] + rest, key) == Progress(Some(x.0), Opened(env, s, x.0, key))
    ensures CallSet([x] + rest) == {x.0} + CallSet(rest)
  {
    hide Opens, Settles, Opened, Settled;
    if rest == [] {
      assert [x] + rest == [x] && [x][..0] == [];
      CallSetGrows([], x);
      assert Outcome(env, s, [], key).first.None?;
    } else {
      var init, y := rest[..|rest| - 1], rest[|rest| - 1];
      CallSetGrows(init, y);
      assert rest == init + [y];
      StartsOpened(env, s, x, init, key);
      assert ([x] + rest)[..|rest|] == [x] + init && [x] + rest == [x] + init + [y];
      CallSetGrows([x] + init, y);
    }
  }

  lemma StartsAndLeaves(env: JobEnv, s: JobState, x: TimedCall, rest: seq<TimedCall>, key: AuditKey)
    requires Opens(env, s, x.0, key) && forall y <- CallSet(rest) :: !Settles(env, s, y, key)
    ensures Last(ApproveAll(env, s, [x] + rest).log, key) == Opened(env, s, x.0, key)
    ensures CallSet([x] + rest) == {x.0} + CallSet(rest)
  {
    hide Opens, Settles, Opened, Settled, ApproveAll;
    StartsOpened(env, s, x, rest, key);
    RunFollows(env, s, [x] + rest, key);
  }

  lemma ConfluentIsOrderFree(env: JobEnv, s: JobState, calls: set<Call>, key: AuditKey)
    requires Confluent(env, s, calls, key)
    ensures OrderFree(env, s, calls, key)
  {
    hide Opens, Settles, Opened, Settled, HeldBack, ApproveAll;
    var base := SomeOrder(calls);
    forall x <- calls, y <- calls | Settles(env, s, x, key) && Settles(env, s, y, key)
      ensures Settled(env, s, x, key) == Settled(env, s, y, key)
    {
      EndsSettled(env, s, base, (x, 0), key);
      EndsSettled(env, s, base, (y, 0), key);
      assert calls + {x} == calls && calls + {y} == calls;
    }
    forall x <- calls | Settles(env, s, x, key) && forall y <- calls :: Settles(env, s, y, key) ==> y == x
      ensures !HeldBack(env, s, x, key)
    {
      OpeningSettles(env, s, x, key);
      var rest := SomeOrder(calls - {x});
      StartsAndLeaves(env, s, (x, 0), rest, key);
      EndsSettled(env, s, base, (x, 0), key);
      assert calls + {x} == calls && {x} + (calls - {x}) == calls;
    }
    if forall x <- calls :: !Settles(env, s, x, key) {
      forall f <- calls, g <- calls | Opens(env, s, f, key) && Opens(env, s, g, key)
        ensures Opened(env, s, f, key) == Opened(env, s, g, key)
      {
        StartsAndLeaves(env, s, (f, 0), base, key);
        StartsAndLeaves(env, s, (g, 0), base, key);
        assert {f} + calls == calls && {g} + calls == calls;
      }
    }
  }

  /**
   * Main result: approval calls are confluent on a key if and only if they are order-free there.
   */
  lemma ConfluentExactly(env: JobEnv, s: JobState, calls: set<Call>, key: AuditKey)
    ensures Confluent(env, s, calls, key) <==> OrderFree(env, s, calls, key)
  {
    hide Opens, Settles, Opened, Settled, HeldBack, OrderFree, ApproveAll;
    if Confluent(env, s, calls, key) {
      ConfluentIsOrderFree(env, s, calls, key);
    }
    if OrderFree(env, s, calls, key) {
      forall xs: seq<TimedCall>, ys: seq<TimedCall> | CallSet(xs) == calls && CallSet(ys) == calls
        ensures Last(ApproveAll(env, s, xs).log, key) == Last(ApproveAll(env, s, ys).log, key)
      {
        RunFollows(env, s, xs, key);
        RunFollows(env, s, ys, key);
        OutcomeShaped(env, s, xs, key);
        OutcomeShaped(env, s, ys, key);
        OrderFreeIsConfluent(env, s, calls, Outcome(env, s, xs, key), Outcome(env, s, ys, key), key);
      }
    }
  }

  /** So two runs of calls order-free on every key leave the same current entries and the same verdict. */
  lemma {:induction false} ApprovalsAreConfluent(env: JobEnv, s: JobState, xs: seq<TimedCall>, ys: seq<TimedCall>,
                                                 infraRequired: bool)
    requires CallSet(xs) == CallSet(ys) && forall key: AuditKey :: OrderFree(env, s, CallSet(xs), key)
    ensures forall key :: Last(ApproveAll(env, s, xs).log, key) == Last(ApproveAll(env, s, ys).log, key)
    ensures LoadState(ApproveAll(env, s, xs).log, infraRequired).Accepted() ==
            LoadState(ApproveAll(env, s, ys).log, infraRequired).Accepted()
  {
    hide OrderFree, ApproveAll, LoadState;
    var p, q := ApproveAll(env, s, xs).log, ApproveAll(env, s, ys).log;
    forall key ensures Last(p, key) == Last(q, key) {
      ConfluentExactly(env, s, CallSet(xs), key);
    }
    AcceptedMeans(p, infraRequired);
    AcceptedMeans(q, infraRequired);
  }

  /** One call and the same call twice differ on a key exactly when the call settles it but is held back. */
  lemma RepeatMatters(env: JobEnv, s: JobState, x: Call, t1: Time, t2: Time, key: AuditKey)
    ensures Last(ApproveAll(env, s, [(x, t1)]).log, key) != Last(ApproveAll(env, s, [(x, t1), (x, t2)]).log, key)
      <==> Settles(env, s, x, key) && HeldBack(env, s, x, key)
  {
    hide Opens, Settles, Opened, Settled, HeldBack, ApproveAll;
    var one, two := [(x, t1)], [(x, t1), (x, t2)];
    RunFollows(env, s, one, key);
    RunFollows(env, s, two, key);
    assert one[..0] == [] && two[..1] == one;
    assert Outcome(env, s, [], key) == Progress(None, Last(s.log, key));
    if Settles(env, s, x, key) {
      OpeningSettles(env, s, x, key);
    }
  }

  // ---- callers who own keys whole

  /** The caller owns all items of a key or none. */
  ghost predicate Uniform(items: seq<Item>) {
    forall i, j :: 0 <= i < |items| && 0 <= j < |items| && ItemKey(items[i]) == ItemKey(items[j]) ==>
      items[i].own == items[j].own
  }

  lemma {:induction false} LastAwaiting(x: seq<Item>, y: seq<Item>, key: AuditKey)
    requires |x| == |y| && forall i :: 0 <= i < |x| ==> x[i].awaiting == y[i].awaiting
    ensures LastItem(x, key).Some? <==> LastItem(y, key).Some?
    ensures LastItem(x, key).Some? ==> LastItem(x, key).value.awaiting == LastItem(y, key).value.awaiting
  {
    if x != [] && ItemKey(x[|x| - 1]) != key {
      LastAwaiting(x[..|x| - 1], y[..|y| - 1], key);
    }
  }

  lemma UniformLast(items: seq<Item>, key: AuditKey)
    requires Uniform(items)
    ensures LastItem(items, key).Some? ==> (LastItem(items, key).value.own <==> OwnsKey(items, key))
  {
    LastItemFound(items, key);
    if LastItem(items, key).Some? {
      var i :| 0 <= i < |items| && items[i] == LastItem(items, key).value;
      if OwnsKey(items, key) {
        var j :| 0 <= j < |items| && items[j].own && ItemKey(items[j]) == key;
      }
    }
  }

  /** Under whole keys the checks before a call make no difference to whether it is refused. */
  lemma UniformRefusal(env: JobEnv, s: JobState, x: Call)
    requires Uniform(ItemsOf(env, s.contract, x))
    ensures Refusal(env, s, x) == SteadyRefusal(env, s.contract, x)
  {
    hide ItemsOf, Signing.NeedsJobApproval, CheckedKeys, SubmittedSignatureOk;
    var items, checked := ItemsOf(env, s.contract, x), CheckedKeys(s.log, KindOf(x));
    ItemsCoherent(env, s.contract, x);
    forall it | it in items ensures it.own <==> ItemKey(it) in OwnKeys(items) {
      var i :| 0 <= i < |items| && items[i] == it;
    }
    WholeOwnEntries(items, checked, OwnKeys(items));
  }

  lemma {:induction false} WholeOwnEntries(items: seq<Item>, checked: set<AuditKey>, keep: set<AuditKey>)
    requires Coherent(items) && forall it <- items :: it.own <==> ItemKey(it) in keep
    ensures Filter(Entries(items, checked), keep) == OwnResults(items)
  {
    if items != [] {
      var n := |items| - 1;
      assert items[n] in items;
      WholeOwnEntries(items[..n], checked, keep);
      var tail := if items[n].own then [items[n].result]
                  else if ItemKey(items[n]) in checked then [] else [items[n].awaiting];
      FilterConcat(Entries(items[..n], checked), tail, keep);
      assert tail != [] ==> tail[..0] == [];
    }
  }

  /** The usual case: callers own keys whole, and the owners of a key get the same result for it. */
  lemma WholeKeysAreOrderFree(env: JobEnv, s: JobState, calls: set<Call>, key: AuditKey)
    requires forall x <- calls :: Uniform(ItemsOf(env, s.contract, x))
    requires forall x <- calls, y <- calls :: Settles(env, s, x, key) && Settles(env, s, y, key) ==>
      Settled(env, s, x, key) == Settled(env, s, y, key)
    ensures OrderFree(env, s, calls, key)
  {
    hide ItemsOf, SteadyRefusal, Refusal, Uniform;
    forall x <- calls
      ensures Settles(env, s, x, key) ==> !HeldBack(env, s, x, key)
      ensures Opens(env, s, x, key) && !Settles(env, s, x, key) ==> LastOwn(ItemsOf(env, s.contract, x), key).None?
    {
      var items := ItemsOf(env, s.contract, x);
      UniformLast(items, key);
      LastOwnFound(items, key);
      UniformRefusal(env, s, x);
    }
    if forall x <- calls :: !Settles(env, s, x, key) {
      forall f <- calls, g <- calls | Opens(env, s, f, key) && Opens(env, s, g, key)
        ensures Opened(env, s, f, key) == Opened(env, s, g, key)
      {
        var p, q := ItemsOf(env, s.contract, f), ItemsOf(env, s.contract, g);
        SameAwaiting(env, s.contract, f, g);
        LastAwaiting(p, q, key);
        UniformLast(p, key);
        UniformLast(q, key);
        LastOwnFound(p, key);
        LastOwnFound(q, key);
      }
    }
  }
}
