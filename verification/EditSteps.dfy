/** Exactly which consumer edits are taken, and what one leaves of the contract, field by field (contract_edit.go). */
module EditSteps {
  import opened Wrappers
  import opened Text
  import opened Contracts
  import opened Signing

  /** A text field after an edit: trimmed when the edit gives one. */
  function Edited(was: string, v: Option<string>): string {
    match v
    case Some(given) => TrimSpace(given)
    case None => was
  }

  predicate Moves(was: string, v: Option<string>) {
    v.Some? && TrimSpace(v.value) != was
  }

  /** A time field after an edit: absent and blank ones leave it. */
  function EditedTime(was: Time, v: TimeField): Time {
    match v
    case At(time) => time
    case _ => was
  }

  // ---- the lifecycle

  function LifecycleAfter(l: Lifecycle, e: Option<LifecycleEdit>): Lifecycle {
    match e
    case Some(edit) =>
      Lifecycle(l.createdAt, EditedTime(l.validFrom, edit.validFrom), EditedTime(l.validUntil, edit.validUntil),
                l.requestedValidUntil)
    case None => l
  }

  predicate LifecycleOk(l: Lifecycle, e: Option<LifecycleEdit>) {
    e.Some? ==>
      && e.value.validFrom != Malformed && e.value.validUntil != Malformed
      && LifecycleAfter(l, e).validFrom <= LifecycleAfter(l, e).validUntil
  }

  // ---- the parties

  function TrusteeAfter(t: Option<Trustee>, path: Option<string>): Option<Trustee> {
    match path
    case None => t
    case Some(_) =>
      match t
      case Some(was) => Some(Trustee(was.kbsUrl, Edited(was.keyResourcePath, path)))
      case None => Some(Trustee("", Edited("", path)))
  }

  function PartyAfter(p: DataProviderParty, e: DataProviderEdit): DataProviderParty {
    DataProviderParty(p.id, p.name, p.datasetId, Edited(p.datasetName, e.datasetName),
                      Edited(p.datasetVersion, e.datasetVersion), Edited(p.dataUrl, e.dataUrl), p.constraints,
                      TrusteeAfter(p.trustee, e.keyResourcePath), p.signature)
  }

  predicate PartyMoves(p: DataProviderParty, e: DataProviderEdit) {
    || Moves(p.datasetName, e.datasetName) || Moves(p.datasetVersion, e.datasetVersion) || Moves(p.dataUrl, e.dataUrl)
    || Moves(if p.trustee.Some? then p.trustee.value.keyResourcePath else "", e.keyResourcePath)
  }

  // ---- the workload

  /** The application the contract runs. */
  function AppId(c: Contract): string {
    if |c.applicationProviders| > 0 then c.applicationProviders[0].id else ""
  }

  /** The workload id the edit names, if it is another than the contract's. */
  function NewApp(c: Contract, e: WorkloadEdit): Option<string> {
    var id := if e.id.Some? then TrimSpace(e.id.value) else "";
    if id != "" && id != AppId(c) then Some(id) else None
  }

  /** The image and resources before the edit's own: the catalogue's, when it switches to a known workload. */
  function BaseOf(c: Contract, w: Workload, e: WorkloadEdit): KnownWorkload {
    match NewApp(c, e)
    case Some(id) => if id in KNOWN_WORKLOADS then KNOWN_WORKLOADS[id] else KnownWorkload(w.image, w.resources)
    case None => KnownWorkload(w.image, w.resources)
  }

  function WorkloadAfter(c: Contract, w: Workload, e: WorkloadEdit): Workload {
    var base := BaseOf(c, w, e);
    Workload(Edited(base.image, e.image),
             WorkloadResources(Edited(base.resources.cpu, e.cpu), Edited(base.resources.memory, e.memory)), w.env)
  }

  /** An edit of the workload needs one, and an unknown one comes with its image. */
  predicate WorkloadOk(c: Contract, e: Option<WorkloadEdit>) {
    e.Some? ==>
      && c.workload.Some?
      && (e.value.id.Some? && TrimSpace(e.value.id.value) != "" && TrimSpace(e.value.id.value) !in KNOWN_WORKLOADS ==>
            e.value.image.Some? && TrimSpace(e.value.image.value) != "")
  }

  predicate WorkloadMoves(c: Contract, w: Workload, e: WorkloadEdit) {
    var base := BaseOf(c, w, e);
    || NewApp(c, e).Some? || Moves(base.image, e.image)
    || Moves(base.resources.cpu, e.cpu) || Moves(base.resources.memory, e.memory)
  }

  // ---- the whole edit

  /** Something the edit names becomes another than it is. */
  predicate Changes(c: Contract, r: EditRequest)
    requires |r.dataProviders| <= |c.dataProviders| && WorkloadOk(c, r.workload)
  {
    || LifecycleAfter(c.lifecycle, r.lifecycle) != c.lifecycle
    || Moves(c.user.name, r.userName)
    || (exists i :: 0 <= i < |r.dataProviders| && PartyMoves(c.dataProviders[i], r.dataProviders[i]))
    || (r.workload.Some? && WorkloadMoves(c, c.workload.value, r.workload.value))
  }

  /** By the contract's owner, on a TEE contract, well formed, and a change. */
  predicate MayEdit(a: Authority, c: Contract, r: EditRequest) {
    && r.sub != "" && Lower(r.sub) == Lower(c.user.id)
    && c.technique == "TEE"
    && |r.dataProviders| <= |c.dataProviders|
    && LifecycleOk(c.lifecycle, r.lifecycle) && WorkloadOk(c, r.workload)
    && Changes(c, r)
    && a.govKey.Some?
  }

  /** The parties, the lifecycle and the owner's name after the edit. */
  ghost predicate TermsEdited(c: Contract, d: Contract, r: EditRequest) {
    && d.lifecycle == LifecycleAfter(c.lifecycle, r.lifecycle)
    && d.user == c.user.(name := Edited(c.user.name, r.userName))
    && |d.dataProviders| == |c.dataProviders|
    && forall i :: 0 <= i < |c.dataProviders| ==>
      d.dataProviders[i] ==
        if i < |r.dataProviders| then PartyAfter(c.dataProviders[i], r.dataProviders[i]) else c.dataProviders[i]
  }

  /** The workload and the application party after the edit, the dataset's URL kept in the environment. */
  ghost predicate WorkloadEdited(c: Contract, d: Contract, r: EditRequest) {
    && (c.workload.None? ==> d.workload.None?)
    && (c.workload.Some? ==>
          var w := if r.workload.Some? then WorkloadAfter(c, c.workload.value, r.workload.value) else c.workload.value;
          d.workload == Some(w.(env := if DATASET_URL in w.env && |d.dataProviders| > 0
                                       then w.env[DATASET_URL := d.dataProviders[0].dataUrl] else w.env)))
    && |d.applicationProviders| == |c.applicationProviders|
    && (forall i :: 0 <= i < |c.applicationProviders| ==>
          var p := c.applicationProviders[i];
          d.applicationProviders[i] ==
            if i > 0 || r.workload.None? || c.workload.None? then p
            else
              var id := NewApp(c, r.workload.value);
              p.(id := id.GetOr(p.id), appName := id.GetOr(p.appName),
                 containerImage := WorkloadAfter(c, c.workload.value, r.workload.value).image))
  }

  /** The contract-level trustee keeps pointing at the first dataset's key. */
  predicate TrusteeSynced(c: Contract, d: Contract) {
    d.trustee ==
      if c.trustee.Some? && |d.dataProviders| > 0 && d.dataProviders[0].trustee.Some?
      then Some(Trustee(c.trustee.value.kbsUrl, d.dataProviders[0].trustee.value.keyResourcePath))
      else c.trustee
  }

  // ---- each part of the draft

  lemma TextExactly(field: string, i: nat, was: string, v: Option<string>)
    ensures NewText(was, v) == Edited(was, v)
    ensures TextChanges(field, i, was, v) != [] <==> Moves(was, v)
  {
    hide TrimSpace;
  }

  lemma LifecycleExactly(c: Contract, r: EditRequest)
    ensures var draft := LifecycleDraft(c, r);
      && (draft.Draft? <==> LifecycleOk(c.lifecycle, r.lifecycle))
      && (draft.Draft? ==>
            && draft.contract == c.(lifecycle := LifecycleAfter(c.lifecycle, r.lifecycle))
            && (draft.changes != [] <==> LifecycleAfter(c.lifecycle, r.lifecycle) != c.lifecycle))
  {
  }

  lemma PartyExactly(i: nat, p: DataProviderParty, e: DataProviderEdit)
    ensures EditDataProvider(p, e) == PartyAfter(p, e)
    ensures DataProviderChanges(i, p, e) != [] <==> PartyMoves(p, e)
  {
    hide NewText, TextChanges, Edited, Moves;
    TextExactly("dataset_name", i, p.datasetName, e.datasetName);
    TextExactly("dataset_version", i, p.datasetVersion, e.datasetVersion);
    TextExactly("data_url", i, p.dataUrl, e.dataUrl);
    TextExactly("key_resource_path", i, if p.trustee.Some? then p.trustee.value.keyResourcePath else "",
                e.keyResourcePath);
  }

  lemma {:induction false} PartiesExactly(ps: seq<DataProviderParty>, es: seq<DataProviderEdit>)
    requires |es| <= |ps|
    ensures AllDataProviderChanges(ps, es) != [] <==> exists i :: 0 <= i < |es| && PartyMoves(ps[i], es[i])
  {
    if es != [] {
      hide DataProviderChanges, PartyMoves;
      var n := |es| - 1;
      assert AllDataProviderChanges(ps, es) ==
        AllDataProviderChanges(ps, es[..n]) + DataProviderChanges(n, ps[n], es[n]);
      PartiesExactly(ps, es[..n]);
      PartyExactly(n, ps[n], es[n]);
      hide AllDataProviderChanges;
      if AllDataProviderChanges(ps, es[..n]) != [] {
        var i :| 0 <= i < n && PartyMoves(ps[i], es[..n][i]);
        assert PartyMoves(ps[i], es[i]);
      } else {
        forall i | 0 <= i < n ensures !PartyMoves(ps[i], es[i]) {
          assert es[..n][i] == es[i];
        }
      }
    }
  }

  /** The workload part of a draft: d has c's workload and application party edited. */
  ghost predicate WorkloadDrafted(c: Contract, d: Contract, e: WorkloadEdit)
    requires c.workload.Some?
  {
    var w, id := WorkloadAfter(c, c.workload.value, e), NewApp(c, e);
    && d == c.(workload := Some(w), applicationProviders := d.applicationProviders)
    && |d.applicationProviders| == |c.applicationProviders|
    && forall i :: 0 <= i < |c.applicationProviders| ==>
      var p := c.applicationProviders[i];
      d.applicationProviders[i] ==
        if i > 0 then p else p.(id := id.GetOr(p.id), appName := id.GetOr(p.appName), containerImage := w.image)
  }

  lemma OverrideExactly(c: Contract, e: WorkloadEdit)
    requires c.workload.Some?
    ensures var w, d := c.workload.value, OverrideWorkload(c, e);
      var resources := WorkloadResources(Edited(w.resources.cpu, e.cpu), Edited(w.resources.memory, e.memory));
      var w' := Workload(Edited(w.image, e.image), resources, w.env);
      && d == c.(workload := Some(w'), applicationProviders := d.applicationProviders)
      && |d.applicationProviders| == |c.applicationProviders|
      && (forall i :: 0 <= i < |c.applicationProviders| ==>
            var p := c.applicationProviders[i];
            d.applicationProviders[i] == if i > 0 then p else p.(containerImage := w'.image))
      && (OverrideChanges(w, e) != [] <==>
            Moves(w.image, e.image) || Moves(w.resources.cpu, e.cpu) || Moves(w.resources.memory, e.memory))
  {
    hide NewText, TextChanges, Edited, Moves;
    var w := c.workload.value;
    TextExactly("workload.image", 0, w.image, e.image);
    TextExactly("workload.cpu", 0, w.resources.cpu, e.cpu);
    TextExactly("workload.memory", 0, w.resources.memory, e.memory);
  }

  lemma {:induction false} WorkloadExactly(c: Contract, r: EditRequest)
    ensures var draft := WorkloadDraft(c, r);
      && (draft.Draft? <==> WorkloadOk(c, r.workload))
      && (draft.Draft? && r.workload.None? ==> draft == Draft(c, []))
      && (draft.Draft? && r.workload.Some? ==>
            && WorkloadDrafted(c, draft.contract, r.workload.value)
            && (draft.changes != [] <==> WorkloadMoves(c, c.workload.value, r.workload.value)))
  {
    hide TrimSpace, OverrideWorkload, OverrideChanges, Edited, Moves;
    if r.workload.Some? && WorkloadOk(c, r.workload) {
      var e := r.workload.value;
      var id := NewApp(c, e);
      var switched := if id.Some? then SwitchWorkload(c, id.value) else c;
      assert RequestedWorkloadId(e) == if e.id.Some? then TrimSpace(e.id.value) else "" by {
        BlankTrims();
      }
      OverrideExactly(switched, e);
    } else {
      BlankTrims();
    }
  }

  lemma BlankTrims()
    ensures TrimSpace("") == ""
  {
  }

  // ---- the whole draft

  /** Nothing but the terms, the derived fields and the amendment differs. */
  predicate OnlyEdits(c: Contract, d: Contract) {
    d == c.(lifecycle := d.lifecycle, user := d.user, dataProviders := d.dataProviders, workload := d.workload,
            applicationProviders := d.applicationProviders, trustee := d.trustee, amendment := d.amendment)
  }

  /** d is c as the edit leaves it. */
  ghost predicate IsEdited(c: Contract, d: Contract, r: EditRequest) {
    TermsEdited(c, d, r) && WorkloadEdited(c, d, r) && TrusteeSynced(c, d) && OnlyEdits(c, d)
  }

  lemma PartiesDrafted(c: Contract, r: EditRequest)
    requires |r.dataProviders| <= |c.dataProviders| && LifecycleDraft(c, r).Draft?
    ensures var d0 := LifecycleDraft(c, r);
      |r.dataProviders| <= |d0.contract.dataProviders| &&
      var d1 := EditParties(d0, r);
      && d1.Draft? && TermsEdited(c, d1.contract, r)
      && d1.contract == c.(lifecycle := d1.contract.lifecycle, user := d1.contract.user,
                           dataProviders := d1.contract.dataProviders)
      && (d1.changes != [] <==>
            || LifecycleAfter(c.lifecycle, r.lifecycle) != c.lifecycle || Moves(c.user.name, r.userName)
            || (exists i :: 0 <= i < |r.dataProviders| && PartyMoves(c.dataProviders[i], r.dataProviders[i])))
  {
    hide LifecycleDraft, LifecycleAfter, TextChanges, NewText, Edited, Moves, EditDataProvider, PartyAfter, PartyMoves;
    hide AllDataProviderChanges;
    LifecycleExactly(c, r);
    TextExactly("user.name", 0, c.user.name, r.userName);
    PartiesExactly(c.dataProviders, r.dataProviders);
    forall i | 0 <= i < |r.dataProviders|
      ensures EditDataProvider(c.dataProviders[i], r.dataProviders[i])
           == PartyAfter(c.dataProviders[i], r.dataProviders[i])
    {
      PartyExactly(i, c.dataProviders[i], r.dataProviders[i]);
    }
  }

  /** Resyncing after the workload part of the draft leaves the contract as edited. */
  lemma SyncedExactly(c: Contract, d1: Contract, d2: Contract, r: EditRequest)
    requires TermsEdited(c, d1, r)
    requires d1 == c.(lifecycle := d1.lifecycle, user := d1.user, dataProviders := d1.dataProviders)
    requires r.workload.None? ==> d2 == d1
    requires r.workload.Some? ==> d1.workload.Some? && WorkloadDrafted(d1, d2, r.workload.value)
    ensures IsEdited(c, SyncDerived(d2), r)
  {
    hide LifecycleAfter, Edited, PartyAfter, BaseOf, WorkloadAfter, NewApp;
    var d := SyncDerived(d2);
    if r.workload.Some? {
      SameWorkload(c, d1, r.workload.value);
      AfterKeepsEnv(c, c.workload.value, r.workload.value);
    }
    assert TermsEdited(c, d, r);
    assert WorkloadEdited(c, d, r);
  }

  lemma SameWorkload(c: Contract, d: Contract, e: WorkloadEdit)
    requires d.workload == c.workload && d.applicationProviders == c.applicationProviders && c.workload.Some?
    ensures NewApp(d, e) == NewApp(c, e) && BaseOf(d, c.workload.value, e) == BaseOf(c, c.workload.value, e)
    ensures WorkloadAfter(d, c.workload.value, e) == WorkloadAfter(c, c.workload.value, e)
    ensures WorkloadMoves(d, c.workload.value, e) == WorkloadMoves(c, c.workload.value, e)
  {
    hide TrimSpace;
  }

  lemma AfterKeepsEnv(c: Contract, w: Workload, e: WorkloadEdit)
    ensures WorkloadAfter(c, w, e).env == w.env
  {
  }

  lemma {:induction false} DraftExactly(c: Contract, r: EditRequest)
    requires |r.dataProviders| <= |c.dataProviders|
    ensures var draft := EditDraft(c, r);
      && (draft.Draft? <==> LifecycleOk(c.lifecycle, r.lifecycle) && WorkloadOk(c, r.workload))
      && (draft.Draft? ==>
            && IsEdited(c, draft.contract, r) && draft.contract.amendment == c.amendment
            && (draft.changes != [] <==> Changes(c, r)))
  {
    hide LifecycleDraft, EditParties, WorkloadDraft, SyncDerived, IsEdited, LifecycleOk, LifecycleAfter, PartyMoves;
    hide WorkloadMoves, Moves, WorkloadDrafted, TermsEdited;
    LifecycleExactly(c, r);
    if LifecycleOk(c.lifecycle, r.lifecycle) {
      PartiesDrafted(c, r);
      var d1 := EditParties(LifecycleDraft(c, r), r);
      WorkloadExactly(d1.contract, r);
      if r.workload.Some? && c.workload.Some? {
        SameWorkload(c, d1.contract, r.workload.value);
      }
      if WorkloadOk(c, r.workload) {
        var d2 := WorkloadDraft(d1.contract, r);
        SyncedExactly(c, d1.contract, d2.contract, r);
        DraftsKeepAmendment(d1.contract, r);
      }
    }
  }

  lemma DraftsKeepAmendment(c: Contract, r: EditRequest)
    requires WorkloadDraft(c, r).Draft?
    ensures SyncDerived(WorkloadDraft(c, r).contract).amendment == c.amendment
  {
  }

  /**
   * Main result: exactly which edits are taken. An accepted one leaves the contract as edited, with
   * the layer's amendment over what it hashes to now; a refused one leaves it as it was.
   */
  lemma {:induction false} EditExactly(a: Authority, c: Contract, r: EditRequest, now: Time)
    ensures var o := EditContract(a, c, r, now);
      var d := o.contract;
      && (o.reply == Accepted <==> MayEdit(a, c, r))
      && (o.reply != Accepted ==> d == c)
      && (o.reply == Accepted ==>
            && IsEdited(c, d, r)
            && d.amendment == Some(Signature(Some(now), "governance-layer", "RSASSA-PKCS1-v1_5-SHA256",
                                             HashContract(d), SignedBy(a.govKey.value, HashContract(d)), None)))
  {
    hide EditDraft, LifecycleOk, WorkloadOk, Changes, IsEdited, HashContract;
    if |r.dataProviders| <= |c.dataProviders| {
      DraftExactly(c, r);
    }
    if EditContract(a, c, r, now).reply == Accepted {
      AmendedExactly(c, EditDraft(c, r).contract, r, a.govKey.value, now);
    }
  }

  lemma AmendedExactly(c: Contract, d: Contract, r: EditRequest, key: Key, now: Time)
    requires IsEdited(c, d, r)
    ensures IsEdited(c, AmendSign(d, key, now), r) && HashContract(AmendSign(d, key, now)) == HashContract(d)
  {
    hide LifecycleAfter, Edited, PartyAfter, WorkloadAfter, NewApp;
    assert Blank(AmendSign(d, key, now)) == Blank(d);
  }
}
