/** Concrete contracts on which a promise does not hold; the exact conditions are proved elsewhere. */
module Examples {
  import opened Wrappers
  import opened Text
  import opened Contracts
  import opened Signing
  import JobApproval
  import ApprovalRuns
  import Finalization

  const NO_CONSTRAINTS := Constraints("", [], None)

  function Dataset(id: string, name: string, signature: Signature): DataProviderParty {
    DataProviderParty(id, name, "item", "", "", "", NO_CONSTRAINTS, None, signature)
  }

  const HOST := InfraProviderParty("host", "", "", Attestation(false, "", ""),
    ResourceAllocation(0, 0, "", false, false, false, false, false), NO_CONSTRAINTS, BLANK_SIGNATURE)

  function Job(datasets: seq<DataProviderParty>, infras: seq<InfraProviderParty>, jobId: string): Contract {
    Contract("", "c", jobId, 1, Lifecycle(0, 0, 5, None), "TEE", "", "", None, None, "",
             UserParty("owner", "", "", BLANK_SIGNATURE), datasets, [], infras,
             SessionInfo("", "", ""), NoHash, None, None)
  }

  lemma SlugOfLetter(ch: char)
    requires 'a' <= ch <= 'z'
    ensures Lower([ch]) == [ch] && ProviderIdForUsername([ch]) == PROVIDER_PREFIX + [ch]
  {
    assert Lower([ch]) == [ch];
    assert [ch][1..] == "";
    assert DashRuns([ch], false) == [ch] + DashRuns("", false) == [ch];
    assert TrimDashes([ch]) == [ch];
  }

  // ---- two datasets under one audit key

  /** A dataset of Keycloak user "u1" named "n", whose provider_id is provider-n. */
  const BY_SUB := Dataset("u1", "n", BLANK_SIGNATURE)

  /** The same item under that provider_id itself. */
  const BY_PROVIDER := Dataset("provider-n", "", BLANK_SIGNATURE)

  /** User "u1" calling as "m": theirs by sub, while provider-n is not among their names. */
  const CALLER := JobApproval.Caller("m", "", "u1", {"data-provider"}, map["item" := JobApproval.DataBank])

  const ENV := JobApproval.JobEnv(Authority(None, map["m" := "key"], true), "data-provider", map[], map[])

  const SPLIT_KEY: JobApproval.AuditKey := (JobApproval.Data, "provider-n", "item")

  function SignedCall(c: Contract): JobApproval.Call {
    JobApproval.DataCall(CALLER, HashContract(c), SignedBy("key", HashContract(c)))
  }

  lemma SplitOwners()
    ensures CALLER.Is(BY_SUB) && !CALLER.Is(BY_PROVIDER)
    ensures PartyProviderId(BY_SUB) == "provider-n" == PartyProviderId(BY_PROVIDER)
    ensures JobApproval.DataKey(BY_SUB) == SPLIT_KEY == JobApproval.DataKey(BY_PROVIDER)
    ensures ENV.authority.PublicKey("m") == Some("key")
  {
    SlugOfLetter('m');
    SlugOfLetter('n');
    assert "provider-n"[..9] == PROVIDER_PREFIX;
    assert !(PROVIDER_PREFIX <= "u1");
    assert PROVIDER_PREFIX + "n" == "provider-n" && PROVIDER_PREFIX + "m" == "provider-m";
    assert CALLER.Names() == {"provider-m", "m", Lower("u1")};
    assert |Lower("u1")| == 2 && |Lower("provider-n")| == 10;
    assert Lower("provider-n")[9] == 'n' && "provider-m"[9] == 'm' && "provider-n"[9] == 'n';
  }

  lemma IsHash(c: Contract)
    ensures HashContract(c) != NoHash
  {
  }

  lemma TwoItems(x: JobApproval.Item, y: JobApproval.Item, key: JobApproval.AuditKey)
    requires JobApproval.ItemKey(x) == key == JobApproval.ItemKey(y) && x.own != y.own
    ensures var items, result := [x, y], if x.own then x.result else y.result;
      && JobApproval.OwnsAny(items) && ApprovalRuns.LastItem(items, key) == Some(y)
      && ApprovalRuns.LastOwn(items, key) == Some(result) && ApprovalRuns.OwnResults(items) == [result]
  {
    var items := [x, y];
    assert items[..1] == [x] && [x][..0] == [];
    assert ApprovalRuns.LastOwn([], key) == None && ApprovalRuns.OwnResults([]) == [];
    assert JobApproval.OwnsAny(items) by { assert items[0].own || items[1].own; }
  }

  lemma SplitCallSteady(c: Contract)
    requires NeedsJobApproval(c) && c.contractHash == NoHash
    requires JobApproval.OwnsAny(JobApproval.ItemsOf(ENV, c, SignedCall(c)))
    ensures ApprovalRuns.SteadyRefusal(ENV, c, SignedCall(c)) == None
  {
    hide HashContract, JobApproval.ItemsOf;
    IsHash(c);
    SplitOwners();
    assert CALLER.Username() == "m";
  }

  /** Listed first, the caller's dataset is held back; listed last, it is not. */
  lemma SplitItems(c: Contract, first: DataProviderParty, second: DataProviderParty)
    requires c == Job([first, second], [HOST], "j")
    requires (first == BY_SUB && second == BY_PROVIDER) || (first == BY_PROVIDER && second == BY_SUB)
    ensures var s := JobApproval.JobState(c, []);
      && ApprovalRuns.Settles(ENV, s, SignedCall(c), SPLIT_KEY)
      && (ApprovalRuns.HeldBack(ENV, s, SignedCall(c), SPLIT_KEY) <==> second == BY_PROVIDER)
      && ApprovalRuns.Settled(ENV, s, SignedCall(c), SPLIT_KEY)
           == Some(JobApproval.DataResult("data-provider", CALLER, BY_SUB))
  {
    hide HashContract, PartyProviderId, ApprovalRuns.SteadyRefusal, JobApproval.DataResult;
    hide JobApproval.Caller.Is, JobApproval.Caller.Names, JobApproval.InfraOwners;
    SplitOwners();
    var x := JobApproval.DataItem("data-provider", CALLER, first);
    var y := JobApproval.DataItem("data-provider", CALLER, second);
    assert JobApproval.ItemsOf(ENV, c, SignedCall(c)) == [x, y];
    TwoItems(x, y, SPLIT_KEY);
    assert NeedsJobApproval(c) by { assert c.infraProviders[0].id != ""; }
    SplitCallSteady(c);
  }

  lemma OwnIsAccepted()
    ensures JobApproval.DataResult("data-provider", CALLER, BY_SUB).accepted
  {
  }

  /**
   * On that contract, with the caller's dataset listed first, one approval call ends on "awaiting"
   * and a second accepts; listed last, the first call already accepts.
   */
  lemma SplitKeyExample(t1: Time, t2: Time)
    ensures var c := Job([BY_SUB, BY_PROVIDER], [HOST], "j");
      var s, x := JobApproval.JobState(c, []), SignedCall(c);
      var one, two := ApprovalRuns.ApproveAll(ENV, s, [(x, t1)]), ApprovalRuns.ApproveAll(ENV, s, [(x, t1), (x, t2)]);
      && JobApproval.Last(one.log, SPLIT_KEY) == Some(JobApproval.AwaitingData(BY_PROVIDER))
      && JobApproval.Last(two.log, SPLIT_KEY).Some? && JobApproval.Last(two.log, SPLIT_KEY).value.accepted
    ensures var c := Job([BY_PROVIDER, BY_SUB], [HOST], "j");
      var one := ApprovalRuns.ApproveAll(ENV, JobApproval.JobState(c, []), [(SignedCall(c), t1)]);
      JobApproval.Last(one.log, SPLIT_KEY).Some? && JobApproval.Last(one.log, SPLIT_KEY).value.accepted
  {
    hide ApprovalRuns.ApproveAll, ApprovalRuns.Settles, ApprovalRuns.Settled, ApprovalRuns.Opens, ApprovalRuns.Opened;
    hide ApprovalRuns.HeldBack, JobApproval.DataResult, SignedCall;
    var c := Job([BY_SUB, BY_PROVIDER], [HOST], "j");
    var s, x := JobApproval.JobState(c, []), SignedCall(c);
    OwnIsAccepted();
    SplitItems(c, BY_SUB, BY_PROVIDER);
    assert [(x, t1)] + [] == [(x, t1)];
    ApprovalRuns.OpeningSettles(ENV, s, x, SPLIT_KEY);
    ApprovalRuns.StartsAndLeaves(ENV, s, (x, t1), [], SPLIT_KEY);
    ApprovalRuns.RepeatMatters(ENV, s, x, t1, t2, SPLIT_KEY);
    HeldBackAwaits(c);
    TwiceSettles(s, x, t1, t2);
    var d := Job([BY_PROVIDER, BY_SUB], [HOST], "j");
    var y := SignedCall(d);
    SplitItems(d, BY_PROVIDER, BY_SUB);
    assert [(y, t1)] + [] == [(y, t1)];
    ApprovalRuns.OpeningSettles(ENV, JobApproval.JobState(d, []), y, SPLIT_KEY);
    ApprovalRuns.StartsAndLeaves(ENV, JobApproval.JobState(d, []), (y, t1), [], SPLIT_KEY);
  }

  lemma HeldBackAwaits(c: Contract)
    requires c == Job([BY_SUB, BY_PROVIDER], [HOST], "j")
    ensures ApprovalRuns.Opened(ENV, JobApproval.JobState(c, []), SignedCall(c), SPLIT_KEY)
      == Some(JobApproval.AwaitingData(BY_PROVIDER))
  {
    hide HashContract, PartyProviderId, ProviderIdForUsername;
    hide JobApproval.Caller.Is, JobApproval.Caller.Names, JobApproval.InfraOwners;
    SplitOwners();
    var items := JobApproval.ItemsOf(ENV, c, SignedCall(c));
    assert items[1] == JobApproval.DataItem("data-provider", CALLER, BY_PROVIDER) && |items| == 2;
  }

  lemma TwiceSettles(s: JobApproval.JobState, x: JobApproval.Call, t1: Time, t2: Time)
    requires ApprovalRuns.Settles(ENV, s, x, SPLIT_KEY)
    ensures JobApproval.Last(ApprovalRuns.ApproveAll(ENV, s, [(x, t1), (x, t2)]).log, SPLIT_KEY)
      == ApprovalRuns.Settled(ENV, s, x, SPLIT_KEY)
  {
    hide ApprovalRuns.ApproveAll, ApprovalRuns.Settles, ApprovalRuns.Settled, ApprovalRuns.Opens, ApprovalRuns.Opened;
    var two := [(x, t1), (x, t2)];
    assert two[..1] == [(x, t1)] && [(x, t1)][..0] == [];
    assert ApprovalRuns.Outcome(ENV, s, [], SPLIT_KEY).first == None;
    ApprovalRuns.OpeningSettles(ENV, s, x, SPLIT_KEY);
    ApprovalRuns.RunFollows(ENV, s, two, SPLIT_KEY);
  }

  // ---- a job id in the column only, and no governance signature

  function SignedByN(hash: Hash): Signature {
    Signature(Some(1), "n", ALGORITHM, hash, SignedBy("key", hash), None)
  }

  /** What provider-n signs for a job whose JSON carries jobId. */
  function Approved(jobId: string): Contract {
    var hash := HashContract(Job([BY_PROVIDER], [HOST], jobId));
    Job([Dataset("provider-n", "", SignedByN(hash))], [HOST], jobId)
  }

  const SIGNERS := Authority(None, map["n" := "key"], false)

  /** n's signature over hash is their provider's and verifies. */
  lemma OwnSignatureChecks(a: Authority, hash: Hash)
    requires a.keys == map["n" := "key"]
    ensures CheckSignature(a, SignedByN(hash), hash, true, "provider-n") == NoError
    ensures forall sig: Signature :: PartyProviderId(Dataset("provider-n", "", sig)) == "provider-n"
  {
    SlugOfLetter('n');
    hide ProviderIdForUsername;
    assert "provider-n"[..9] == PROVIDER_PREFIX && PROVIDER_PREFIX + "n" == "provider-n";
  }

  lemma ApprovedVerifies(jobId: string)
    ensures NeedsJobApproval(Approved(jobId)) && Finalization.JobVerified(SIGNERS, Approved(jobId), map[])
    ensures Finalization.CarriesOwnJob(Approved(jobId))
  {
    hide HashContract, CheckSignature, PartyProviderId, SameUnsigned, InfraStatuses;
    var c, unsigned := Approved(jobId), Job([BY_PROVIDER], [HOST], jobId);
    SameJob(jobId);
    HashIgnoresExactlySignatures(c, unsigned);
    OwnSignatureChecks(SIGNERS, HashContract(c));
    assert c.infraProviders[0].id != "";
  }

  lemma SameJob(jobId: string)
    ensures SameUnsigned(Approved(jobId), Job([BY_PROVIDER], [HOST], jobId))
  {
    hide HashContract;
  }

  /**
   * Job "j" whose JSON does not carry its id passes verification and never becomes final; carried,
   * it does, with no governance signature on it.
   */
  lemma ColumnOnlyExample()
    ensures Finalization.JobVerified(SIGNERS, Approved(""), map[])
    ensures !ContractVerified(SIGNERS, Finalization.Seal(Finalization.Stamped(Approved(""), "j")))
    ensures var final := Finalization.Seal(Finalization.Stamped(Approved("j"), "j"));
      ContractVerified(SIGNERS, final) && final.governance.None?
  {
    hide ContractVerified, Finalization.JobVerified, Finalization.CarriesOwnJob, NeedsJobApproval;
    ApprovedVerifies("");
    ApprovedVerifies("j");
    assert Approved("").jobId == "" && Approved("j").jobId == "j";
    Finalization.FinalIffJobIdInJson(SIGNERS, Approved(""), map[], "j");
    Finalization.FinalIffJobIdInJson(SIGNERS, Approved("j"), map[], "j");
  }

  // ---- a contract past its own end

  /** Signed by all, governance-signed, ending at 5, with no consent expiry: the gate opens at 10. */
  lemma GateAfterEndExample()
    ensures var c := Job([BY_PROVIDER], [], "");
      var hash := HashContract(c);
      var gov := Signature(Some(1), GOVERNANCE_SIGNER, ALGORITHM, hash, SignedBy("gov", hash), None);
      var signed := c.(dataProviders := [Dataset("provider-n", "", SignedByN(hash))], contractHash := hash,
                       governance := Some(gov));
      Gate(SIGNERS.(govKey := Some("gov")), signed, 10) == Passed && signed.lifecycle.validUntil == 5
  {
    hide HashContract;
    var c := Job([BY_PROVIDER], [], "");
    var hash := HashContract(c);
    var gov := Signature(Some(1), GOVERNANCE_SIGNER, ALGORITHM, hash, SignedBy("gov", hash), None);
    var signed := c.(dataProviders := [Dataset("provider-n", "", SignedByN(hash))], contractHash := hash,
                     governance := Some(gov));
    assert SameUnsigned(signed, c);
    HashIgnoresExactlySignatures(signed, c);
    OwnSignatureChecks(SIGNERS.(govKey := Some("gov")), hash);
  }
}
