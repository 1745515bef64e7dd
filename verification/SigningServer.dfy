/**
 * The signing handlers as the server runs them: each loads the stored
 * contract, changes its own copy in place and writes it back.
 */
module SigningServer {
  import opened Wrappers
  import opened Text
  import opened Contracts
  import opened Signing
  import Verification

  class Server {
    var authority: Authority
    var stored: Contract

    constructor (authority: Authority, stored: Contract)
      ensures this.authority == authority && this.stored == stored
    {
      this.authority, this.stored := authority, stored;
    }

    /** One signature's check; keys caches the public keys looked up so far. */
    method CheckParty(sig: Signature, hash: Hash, hashOk: bool, want: string, keys: map<string, Key>)
      returns (error: SigError, keys': map<string, Key>)
      requires forall k <- keys :: authority.PublicKey(k) == Some(keys[k])
      ensures error == CheckSignature(authority, sig, hash, hashOk, want)
      ensures forall k <- keys' :: authority.PublicKey(k) == Some(keys'[k])
    {
      keys' := keys;
      if sig.value == NoValue {
        error := if sig.withdrawnAt.Some? then ConsentWithdrawn else NotSigned;
      } else if !hashOk {
        error := ContentChanged;
      } else if sig.signedHash != hash {
        error := DifferentHash;
      } else if want != "" && ProviderIdForUsername(sig.signer) != want {
        error := SignerMismatch;
      } else {
        if sig.signer !in keys' {
          var pub := authority.PublicKey(sig.signer);
          if pub.None? {
            return KeyLookupFailed, keys';
          }
          keys' := keys'[sig.signer := pub.value];
        }
        error := if Verifies(keys'[sig.signer], hash, sig.value) then NoError else DoesNotVerify;
      }
    }

    method DataProviderSignatures(ps: seq<DataProviderParty>, hash: Hash, hashOk: bool)
      returns (parties: seq<PartyStatus>, allValid: bool, keys: map<string, Key>)
      ensures parties == DataProviderStatuses(authority, ps, hash, hashOk)
      ensures allValid == AllValid(parties)
      ensures forall k <- keys :: authority.PublicKey(k) == Some(keys[k])
    {
      hide CheckSignature, AllValid, PartyProviderId;
      parties, allValid, keys := [], true, map[];
      ghost var all := DataProviderStatuses(authority, ps, hash, hashOk);
      assert AllValid([]) by { AllValidNone(); }
      for i := 0 to |ps|
        invariant parties == all[..i]
        invariant allValid == AllValid(parties)
        invariant forall k <- keys :: authority.PublicKey(k) == Some(keys[k])
      {
        var p := ps[i];
        var error;
        error, keys := CheckParty(p.signature, hash, hashOk, PartyProviderId(p), keys);
        var st := PartyStatus(PartyProviderId(p), p.datasetName, "", p.signature.value != NoValue,
                              p.signature.signer, error);
        AllValidGrows(parties, st);
        assert st == all[i];
        assert all[..i + 1] == all[..i] + [all[i]];
        parties := parties + [st];
        allValid := allValid && error == NoError;
      }
      assert all[..|ps|] == all;
    }

    method InfraSignatures(ips: seq<InfraProviderParty>, hash: Hash, hashOk: bool, owners: map<string, string>,
                           cached: map<string, Key>)
      returns (parties: seq<PartyStatus>, allValid: bool)
      requires forall k <- cached :: authority.PublicKey(k) == Some(cached[k])
      ensures parties == InfraStatuses(authority, ips, hash, hashOk, owners)
      ensures allValid == AllValid(parties)
    {
      hide CheckSignature, AllValid;
      parties, allValid := [], true;
      assert AllValid([]) by { AllValidNone(); }
      var keys := cached;
      for i := 0 to |ips|
        invariant parties == InfraStatuses(authority, ips[..i], hash, hashOk, owners)
        invariant allValid == AllValid(parties)
        invariant forall k <- keys :: authority.PublicKey(k) == Some(keys[k])
      {
        var ip := ips[i];
        assert ips[..i + 1][..i] == ips[..i];
        if ip.id != "" {
          var error;
          error, keys := CheckParty(ip.signature, hash, hashOk, OwnerOf(owners, ip.id), keys);
          var st := PartyStatus(
            if ip.signature.signer != "" then ProviderIdForUsername(ip.signature.signer) else "",
            "", ip.id, ip.signature.value != NoValue, ip.signature.signer, error);
          AllValidGrows(parties, st);
          parties := parties + [st];
          allValid := allValid && error == NoError;
        }
      }
      assert ips[..|ips|] == ips;
    }

    /** providerSignatures: every party's status, and whether all are valid. */
    method ProviderSignatures(c: Contract, hash: Hash, hashOk: bool, owners: map<string, string>)
      returns (parties: seq<PartyStatus>, allValid: bool)
      ensures parties == ProviderStatuses(authority, c, hash, hashOk, owners)
      ensures allValid == AllValid(parties)
    {
      var keys;
      parties, allValid, keys := DataProviderSignatures(c.dataProviders, hash, hashOk);
      if NeedsJobApproval(c) && authority.requireInfra {
        var infras, infrasValid := InfraSignatures(c.infraProviders, hash, hashOk, owners, keys);
        AllValidJoins(parties, infras);
        parties, allValid := parties + infras, allValid && infrasValid;
      }
    }

    /** requireAllProvidersSigned on the stored contract. */
    method RequireAllProvidersSigned(now: Time) returns (verdict: GateVerdict)
      ensures verdict == Gate(authority, stored, now)
      ensures verdict == Passed <==> Verification.MayRun(authority, stored, now)
    {
      hide Verification.MayRun;
      var c := stored;
      Verification.GateExactly(authority, c, now);
      if !Signable(c) {
        return NotFinalRoster;
      }
      var hashOk := ContentMatches(authority, c);
      var parties, allValid := ProviderSignatures(c, c.contractHash, hashOk, map[]);
      allValid := allValid && hashOk && GovernanceSignatureOk(authority, c, c.contractHash) && |c.dataProviders| > 0;
      if !hashOk {
        return HashMismatch;
      }
      if !GovernanceSignatureOk(authority, c, c.contractHash) {
        return NoGovernance;
      }
      if !allValid {
        return WaitingOnProviders;
      }
      var current := CheckConsentExpiry(c, now);
      verdict := if current then Passed else ConsentExpired;
    }

    method CheckConsentExpiry(c: Contract, now: Time) returns (current: bool)
      ensures current == ConsentCurrent(c, now)
    {
      for i := 0 to |c.dataProviders|
        invariant forall k :: 0 <= k < i ==>
          (var u := c.dataProviders[k].constraints.consentValidUntil; u.Some? ==> now <= u.value)
      {
        var u := c.dataProviders[i].constraints.consentValidUntil;
        if u.Some? && now > u.value {
          return false;
        }
      }
      current := true;
    }

    method SignContract(r: SignRequest, now: Time) returns (reply: Reply)
      modifies this`stored
      ensures Outcome(stored, reply) == Signing.SignContract(authority, old(stored), r, now)
    {
      hide HashContract, AmendmentValid, GovernanceSignatureValid, NeedsJobApproval, IsParty, HasSigned;
      hide ProviderIdForUsername, WithSignature, Signable, EqualFold;
      var c := stored;
      var providerId := ProviderIdForUsername(r.username);
      if r.claimedUsername != "" && !EqualFold(r.claimedUsername, r.username) {
        return Refused("SIGNER_MISMATCH");
      }
      if r.hash == NoHash || r.value == NoValue {
        return Refused("MISSING_FIELDS");
      }
      if !Signable(c) {
        return Refused("CONTRACT_NOT_SIGNABLE");
      }
      if NeedsJobApproval(c) && !r.jobAccepted {
        return Refused("JOB_NOT_APPROVED");
      }
      var hash := HashContract(c);
      if hash != c.contractHash && AmendmentValid(authority, c, hash) {
        hash := c.contractHash;
      }
      if hash != c.contractHash || hash != r.hash {
        return Refused("HASH_MISMATCH");
      }
      if !GovernanceSignatureValid(authority, c, hash) {
        return Refused("NO_GOVERNANCE_SIGNATURE");
      }
      var isParty, _ := FindParty(c, providerId);
      if !isParty {
        return Refused("NOT_A_PARTY");
      }
      var pub := authority.PublicKey(r.username);
      if pub.None? {
        return Refused("NO_PUBLIC_KEY");
      }
      if !Verifies(pub.value, hash, r.value) {
        return Refused("INVALID_SIGNATURE");
      }
      var sig := Signature(Some(now), r.username, ALGORITHM, hash, r.value, None);
      var ps := ApplySignature(c.dataProviders, providerId, sig);
      stored := c.(dataProviders := ps);
      reply := Accepted;
    }

    /** Records sig on every party of providerId. */
    method ApplySignature(before: seq<DataProviderParty>, providerId: string, sig: Signature)
      returns (ps: seq<DataProviderParty>)
      ensures ps == WithSignature(before, providerId, sig)
    {
      hide PartyProviderId;
      ps := before;
      for i := 0 to |ps|
        invariant |ps| == |before|
        invariant forall k :: i <= k < |ps| ==> ps[k] == before[k]
        invariant forall k :: 0 <= k < i ==> ps[k] == WithSignature(before, providerId, sig)[k]
      {
        if PartyProviderId(ps[i]) == providerId {
          ps := ps[i := ps[i].(signature := sig)];
        }
      }
    }

    /** Whether providerId names a party of c, and whether any of its parties is signed. */
    method FindParty(c: Contract, providerId: string) returns (isParty: bool, signed: bool)
      ensures isParty == IsParty(c, providerId) && signed == HasSigned(c, providerId)
    {
      hide PartyProviderId;
      isParty, signed := false, false;
      for i := 0 to |c.dataProviders|
        invariant isParty == exists k :: 0 <= k < i && PartyProviderId(c.dataProviders[k]) == providerId
        invariant signed == (exists k :: 0 <= k < i && PartyProviderId(c.dataProviders[k]) == providerId
                                && c.dataProviders[k].signature.value != NoValue)
      {
        if PartyProviderId(c.dataProviders[i]) == providerId {
          isParty := true;
          signed := signed || c.dataProviders[i].signature.value != NoValue;
        }
      }
    }

    method WithdrawConsent(username: string, now: Time) returns (reply: Reply)
      modifies this`stored
      ensures Outcome(stored, reply) == Signing.WithdrawConsent(old(stored), username, now)
    {
      hide IsParty, HasSigned, ProviderIdForUsername, WithWithdrawal;
      var c := stored;
      var providerId := ProviderIdForUsername(username);
      if c.technique != "TEE" {
        return Refused("WITHDRAWAL_NOT_SUPPORTED");
      }
      var isParty, wasSigned := FindParty(c, providerId);
      if !isParty {
        return Refused("NOT_A_PARTY");
      }
      if !wasSigned {
        return Refused("NOT_SIGNED");
      }
      var ps := ApplyWithdrawal(c.dataProviders, providerId, username, now);
      stored := c.(dataProviders := ps);
      reply := Accepted;
    }

    /** Clears every signature of providerId and stamps the withdrawal. */
    method ApplyWithdrawal(before: seq<DataProviderParty>, providerId: string, username: string, now: Time)
      returns (ps: seq<DataProviderParty>)
      ensures ps == WithWithdrawal(before, providerId, username, now)
    {
      hide PartyProviderId;
      ps := before;
      for i := 0 to |ps|
        invariant |ps| == |before|
        invariant forall k :: i <= k < |ps| ==> ps[k] == before[k]
        invariant forall k :: 0 <= k < i ==> ps[k] == WithWithdrawal(before, providerId, username, now)[k]
      {
        if PartyProviderId(ps[i]) == providerId {
          var sig := ps[i].signature;
          sig := sig.(signedAt := None);
          sig := sig.(algorithm := "");
          sig := sig.(signedHash := NoHash);
          sig := sig.(value := NoValue);
          sig := sig.(signer := username);
          sig := sig.(withdrawnAt := Some(now));
          ps := ps[i := ps[i].(signature := sig)];
        }
      }
    }

    /** earliestConsentExpiry: a running minimum that starts at fallback. */
    method EarliestExpiry(ps: seq<DataProviderParty>, fallback: Time) returns (out: Time)
      ensures out == EarliestConsentExpiry(ps, fallback)
    {
      out := fallback;
      for i := 0 to |ps|
        invariant out == EarliestConsentExpiry(ps[..i], fallback)
      {
        assert ps[..i + 1][..i] == ps[..i];
        var u := ps[i].constraints.consentValidUntil;
        if u.Some? && (out == ZERO_TIME || u.value < out) {
          out := u.value;
        }
      }
      assert ps[..|ps|] == ps;
    }

    method SetConsentExpiry(username: string, until: Option<Time>, now: Time) returns (reply: Reply)
      modifies this`stored
      ensures Outcome(stored, reply) == Signing.SetConsentExpiry(authority, old(stored), username, until, now)
    {
      hide IsParty, HasSigned, ProviderIdForUsername, WithExpiry, EarliestConsentExpiry, HashContract, NeedsJobApproval;
      var c := stored;
      var providerId := ProviderIdForUsername(username);
      if until.None? {
        return Refused("BAD_REQUEST");
      }
      if c.technique != "TEE" && c.technique != "SMPC" {
        return Refused("NOT_SUPPORTED");
      }
      if NeedsJobApproval(c) || c.governance.None? || authority.govKey.None? {
        return Refused("NOT_SUPPORTED");
      }
      var isParty, signed := FindParty(c, providerId);
      if !isParty {
        return Refused("NOT_A_PARTY");
      }
      if signed {
        return Refused("ALREADY_SIGNED");
      }
      if until.value <= now {
        return Refused("BAD_REQUEST");
      }
      var end := if c.lifecycle.requestedValidUntil.Some? then c.lifecycle.requestedValidUntil.value
                 else c.lifecycle.validUntil;
      if end != ZERO_TIME && until.value > end {
        return Refused("BAD_REQUEST");
      }
      var ps := ApplyExpiry(c.dataProviders, providerId, until.value);
      var lifecycle := c.lifecycle;
      if lifecycle.requestedValidUntil.None? && end != ZERO_TIME {
        lifecycle := lifecycle.(requestedValidUntil := Some(end));
      }
      var earliest := EarliestExpiry(ps, end);
      lifecycle := lifecycle.(validUntil := earliest);
      c := c.(dataProviders := ps, lifecycle := lifecycle);
      c := c.(contractHash := HashContract(c));
      c := GovernanceSign(c, authority.govKey.value, now);
      stored := c;
      reply := Accepted;
    }

    /** Sets providerId's expiry and clears every signature already given. */
    method ApplyExpiry(before: seq<DataProviderParty>, providerId: string, until: Time)
      returns (ps: seq<DataProviderParty>)
      ensures ps == WithExpiry(before, providerId, until)
    {
      ps := before;
      for i := 0 to |ps|
        invariant |ps| == |before|
        invariant forall k :: i <= k < |ps| ==> ps[k] == before[k]
        invariant forall k :: 0 <= k < i ==> ps[k] == WithExpiry(before, providerId, until)[k]
      {
        var p := ps[i];
        if PartyProviderId(p) == providerId {
          p := p.(constraints := p.constraints.(consentValidUntil := Some(until)));
        }
        if p.signature.value != NoValue {
          p := p.(signature := p.signature.(signedAt := None, algorithm := "", signedHash := NoHash, value := NoValue));
        }
        ps := ps[i := p];
      }
    }

    /** SignDataProviderParty on this contract; returns whether any party was stamped. */
    method AcceptInvite(username: string, now: Time) returns (signed: bool)
      modifies this`stored
      ensures stored == Signing.AcceptInvite(old(stored), username, now)
      ensures signed <==> Invitable(old(stored).dataProviders, username)
    {
      var c := stored;
      var ps := c.dataProviders;
      signed := false;
      for i := 0 to |ps|
        invariant |ps| == |c.dataProviders|
        invariant forall k :: i <= k < |ps| ==> ps[k] == c.dataProviders[k]
        invariant forall k :: 0 <= k < i ==> ps[k] == WithInvite(c.dataProviders, username, now)[k]
        invariant signed <==> Invitable(c.dataProviders[..i], username)
      {
        if ps[i].name == username && ps[i].signature.signedAt.None? {
          ps := ps[i := ps[i].(signature := ps[i].signature.(signedAt := Some(now)))];
          signed := true;
        }
      }
      if !signed {
        assert ps == c.dataProviders;
        return;
      }
      stored := c.(dataProviders := ps);
    }

    /** setStr: the trimmed value, and the changes so far with this one when it is one. */
    method SetText(field: string, index: nat, was: string, v: Option<string>, changes: seq<Change>)
      returns (now: string, changes': seq<Change>)
      ensures now == NewText(was, v) && changes' == changes + TextChanges(field, index, was, v)
    {
      now, changes' := was, changes;
      if v.Some? {
        var nv := TrimSpace(v.value);
        if nv != was {
          changes' := changes + [TextChange(field, index, was, nv)];
          now := nv;
        }
      }
    }

    method EditParty(i: nat, p: DataProviderParty, e: DataProviderEdit, changes: seq<Change>)
      returns (q: DataProviderParty, changes': seq<Change>)
      ensures q == EditDataProvider(p, e) && changes' == changes + DataProviderChanges(i, p, e)
    {
      var name, version, url, path;
      name, changes' := SetText("dataset_name", i, p.datasetName, e.datasetName, changes);
      version, changes' := SetText("dataset_version", i, p.datasetVersion, e.datasetVersion, changes');
      url, changes' := SetText("data_url", i, p.dataUrl, e.dataUrl, changes');
      q := p.(datasetName := name, datasetVersion := version, dataUrl := url);
      if e.keyResourcePath.Some? {
        var t := if q.trustee.None? then NO_TRUSTEE else q.trustee.value;
        path, changes' := SetText("key_resource_path", i, t.keyResourcePath, e.keyResourcePath, changes');
        q := q.(trustee := Some(t.(keyResourcePath := path)));
      }
    }

    /** The positional data-provider edits, applied in place. */
    method EditPartyList(before: seq<DataProviderParty>, es: seq<DataProviderEdit>, changes: seq<Change>)
      returns (ps: seq<DataProviderParty>, changes': seq<Change>)
      requires |es| <= |before|
      ensures ps == EditDataProviders(before, es) && changes' == changes + AllDataProviderChanges(before, es)
    {
      hide EditDataProvider, DataProviderChanges;
      ps, changes' := before, changes;
      for i := 0 to |es|
        invariant |ps| == |before|
        invariant forall k :: i <= k < |ps| ==> ps[k] == before[k]
        invariant forall k :: 0 <= k < i ==> ps[k] == EditDataProvider(before[k], es[k])
        invariant changes' == changes + AllDataProviderChanges(before, es[..i])
      {
        assert es[..i + 1][..i] == es[..i];
        var q;
        q, changes' := EditParty(i, ps[i], es[i], changes');
        ps := ps[i := q];
      }
      assert es[..|es|] == es;
    }

    /** Switches to workload id, in place. */
    method SwitchInPlace(before: Contract, id: string) returns (c: Contract)
      requires before.workload.Some?
      ensures c == SwitchWorkload(before, id)
    {
      c := before;
      var w, apps := c.workload.value, c.applicationProviders;
      if id in KNOWN_WORKLOADS {
        w := w.(image := KNOWN_WORKLOADS[id].image);
        w := w.(resources := KNOWN_WORKLOADS[id].resources);
      }
      if |apps| > 0 {
        apps := apps[0 := apps[0].(id := id, appName := id, containerImage := w.image)];
      }
      c := c.(workload := Some(w), applicationProviders := apps);
    }

    /** Overrides the image and resources, keeping the application party's image in step. */
    method OverrideInPlace(before: Contract, wl: WorkloadEdit, changes: seq<Change>)
      returns (c: Contract, changes': seq<Change>)
      requires before.workload.Some?
      ensures c == OverrideWorkload(before, wl) && changes' == changes + OverrideChanges(before.workload.value, wl)
    {
      hide NewText, TextChanges;
      c := before;
      var w, apps := c.workload.value, c.applicationProviders;
      var image, cpu, memory;
      image, changes' := SetText("workload.image", 0, w.image, wl.image, changes);
      cpu, changes' := SetText("workload.cpu", 0, w.resources.cpu, wl.cpu, changes');
      memory, changes' := SetText("workload.memory", 0, w.resources.memory, wl.memory, changes');
      w := w.(image := image, resources := WorkloadResources(cpu, memory));
      if |apps| > 0 {
        apps := apps[0 := apps[0].(containerImage := w.image)];
      }
      c := c.(workload := Some(w), applicationProviders := apps);
    }

    /** The workload part of an edit; refusal is "" when it may go on. */
    method EditWorkloadInPlace(before: Contract, wl: WorkloadEdit, changes: seq<Change>)
      returns (c: Contract, changes': seq<Change>, refusal: string)
      ensures match EditWorkload(before, wl)
        case NotEditable(code) => refusal == code && code != ""
        case Draft(d, more) => refusal == "" && c == d && changes' == changes + more
    {
      hide SwitchWorkload, OverrideWorkload, OverrideChanges;
      c, changes', refusal := before, changes, "";
      if c.workload.None? {
        refusal := "BAD_REQUEST";
        return;
      }
      var id := RequestedWorkloadId(wl);
      if id != "" {
        if id !in KNOWN_WORKLOADS && TrimSpace(wl.image.GetOr("")) == "" {
          refusal := "UNKNOWN_WORKLOAD";
          return;
        }
        var prev := if |c.applicationProviders| > 0 then c.applicationProviders[0].id else "";
        if id != prev {
          changes' := changes' + [TextChange("workload", 0, prev, id)];
          c := SwitchInPlace(c, id);
          SwitchKeepsWorkload(before, id);
        }
      }
      c, changes' := OverrideInPlace(c, wl, changes');
    }

    /** The lifecycle part of an edit; refused when a time is malformed or the window is empty. */
    method EditLifecycleInPlace(before: Contract, e: LifecycleEdit)
      returns (c: Contract, changes: seq<Change>, refusal: string)
      ensures match EditLifecycle(before, e)
        case NotEditable(code) => refusal == code && code != ""
        case Draft(d, more) => refusal == "" && c == d && changes == more
    {
      c, changes, refusal := before, [], "";
      if e.validFrom.Malformed? {
        refusal := "BAD_REQUEST";
        return;
      }
      if e.validFrom.At? && e.validFrom.time != c.lifecycle.validFrom {
        changes := [TimeChange("lifecycle.valid_from", c.lifecycle.validFrom, e.validFrom.time)];
        c := c.(lifecycle := c.lifecycle.(validFrom := e.validFrom.time));
      }
      if e.validUntil.Malformed? {
        refusal := "BAD_REQUEST";
        return;
      }
      if e.validUntil.At? && e.validUntil.time != c.lifecycle.validUntil {
        changes := changes + [TimeChange("lifecycle.valid_until", c.lifecycle.validUntil, e.validUntil.time)];
        c := c.(lifecycle := c.lifecycle.(validUntil := e.validUntil.time));
      }
      if c.lifecycle.validUntil < c.lifecycle.validFrom {
        refusal := "BAD_REQUEST";
      }
    }

    /** The whole edit up to signing; refusal is "" when it may be signed. */
    method EditInPlace(before: Contract, r: EditRequest)
      returns (c: Contract, changes: seq<Change>, refusal: string)
      requires |r.dataProviders| <= |before.dataProviders|
      ensures match EditDraft(before, r)
        case NotEditable(code) => refusal == code && code != ""
        case Draft(d, all) => refusal == "" && c == d && changes == all
    {
      c, changes, refusal := before, [], "";
      if r.lifecycle.Some? {
        c, changes, refusal := EditLifecycleInPlace(c, r.lifecycle.value);
        if refusal != "" {
          return;
        }
      }
      var name, ps;
      name, changes := SetText("user.name", 0, c.user.name, r.userName, changes);
      ps, changes := EditPartyList(c.dataProviders, r.dataProviders, changes);
      c := c.(user := c.user.(name := name), dataProviders := ps);
      ghost var d1 := EditParties(LifecycleDraft(before, r), r);
      assert c == d1.contract && changes == d1.changes;
      if r.workload.Some? {
        c, changes, refusal := EditWorkloadInPlace(c, r.workload.value, changes);
        if refusal != "" {
          return;
        }
      }
      c := SyncInPlace(c);
    }

    /** The fields derived from the first dataset, set again after an edit. */
    method SyncInPlace(before: Contract) returns (c: Contract)
      ensures c == SyncDerived(before)
    {
      c := before;
      if |c.dataProviders| > 0 {
        var first := c.dataProviders[0];
        if c.workload.Some? && DATASET_URL in c.workload.value.env {
          c := c.(workload := Some(c.workload.value.(env := c.workload.value.env[DATASET_URL := first.dataUrl])));
        }
        if c.trustee.Some? && first.trustee.Some? {
          c := c.(trustee := Some(c.trustee.value.(keyResourcePath := first.trustee.value.keyResourcePath)));
        }
      }
    }

    method EditContract(r: EditRequest, now: Time) returns (reply: Reply)
      modifies this`stored
      ensures Outcome(stored, reply) == Signing.EditContract(authority, old(stored), r, now)
    {
      hide EditDraft;
      var c := stored;
      if r.sub == "" || !EqualFold(r.sub, c.user.id) {
        return Refused("NOT_CONTRACT_OWNER");
      }
      if c.technique != "TEE" {
        return Refused("EDIT_NOT_SUPPORTED");
      }
      if |r.dataProviders| > |c.dataProviders| {
        return Refused("BAD_REQUEST");
      }
      var edited, changes, refusal := EditInPlace(c, r);
      if refusal != "" {
        return Refused(refusal);
      }
      if changes == [] {
        return Refused("NO_CHANGES");
      }
      if authority.govKey.None? {
        return Refused("INTERNAL_ERROR");
      }
      stored := AmendSign(edited, authority.govKey.value, now);
      reply := Accepted;
    }
  }

  lemma SwitchKeepsWorkload(c: Contract, id: string)
    requires c.workload.Some?
    ensures SwitchWorkload(c, id).workload.Some?
  {
  }

  /** Some party of that name is not marked signed yet. */
  predicate Invitable(ps: seq<DataProviderParty>, username: string) {
    exists k :: 0 <= k < |ps| && ps[k].name == username && ps[k].signature.signedAt.None?
  }
}
