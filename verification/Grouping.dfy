/**
 * Order-preserving grouping (internal/httpapi/job_participants.go, internal/httpapi/job_request.go):
 * a user's rows by job, and a contract's datasets and infras by the provider they are asked of.
 */
module Grouping {
  import opened Wrappers
  import opened Contracts
  import opened JobApproval

  datatype Group<K, V> = Group(key: K, items: seq<V>)

  // ---- what grouping is

  /** Each key once, in order of first appearance. */
  function FirstKeys<K(==)>(keys: seq<K>): seq<K> {
    if keys == [] then []
    else
      var init, k := FirstKeys(keys[..|keys| - 1]), keys[|keys| - 1];
      if k in init then init else init + [k]
  }

  /** Where k stands in keys, ascending. */
  function Positions<K(==)>(keys: seq<K>, k: K): (r: seq<nat>)
    ensures forall i :: 0 <= i < |r| ==> r[i] < |keys| && keys[r[i]] == k
  {
    if keys == [] then []
    else
      var n := |keys| - 1;
      var r := Positions(keys[..n], k);
      assert forall i :: 0 <= i < |r| ==> keys[r[i]] == keys[..n][r[i]];
      if keys[n] == k then r + [n] else r
  }

  function Keys<K, V>(pairs: seq<(K, V)>): (r: seq<K>)
    ensures |r| == |pairs|
  {
    seq(|pairs|, i requires 0 <= i < |pairs| => pairs[i].0)
  }

  /** The values under k, in order. */
  function ItemsOf<K(==), V>(pairs: seq<(K, V)>, k: K): (r: seq<V>)
    ensures |r| == |Positions(Keys(pairs), k)|
  {
    var at := Positions(Keys(pairs), k);
    seq(|at|, i requires 0 <= i < |at| => pairs[at[i]].1)
  }

  function Groups<K(==), V>(pairs: seq<(K, V)>): (r: seq<Group<K, V>>)
    ensures |r| == |FirstKeys(Keys(pairs))|
  {
    var keys := FirstKeys(Keys(pairs));
    seq(|keys|, g requires 0 <= g < |keys| => Group(keys[g], ItemsOf(pairs, keys[g])))
  }

  predicate Distinct<K(==)>(keys: seq<K>) {
    forall i, k :: 0 <= i < k < |keys| ==> keys[i] != keys[k]
  }

  lemma {:induction false} FirstKeysExact<K>(keys: seq<K>, k: K)
    ensures k in FirstKeys(keys) <==> k in keys
    ensures Distinct(FirstKeys(keys))
  {
    if keys != [] {
      FirstKeysExact(keys[..|keys| - 1], k);
      assert keys == keys[..|keys| - 1] + [keys[|keys| - 1]];
    }
  }

  lemma {:induction false} PositionsExact<K>(keys: seq<K>, k: K, i: nat)
    requires i < |keys|
    ensures i in Positions(keys, k) <==> keys[i] == k
    ensures var r := Positions(keys, k); forall a, b :: 0 <= a < b < |r| ==> r[a] < r[b]
  {
    var n := |keys| - 1;
    if n > 0 {
      PositionsExact(keys[..n], k, if i < n then i else 0);
    }
  }

  /** Keys come in order of first appearance. */
  lemma {:induction false} FirstAppearance<K>(keys: seq<K>, a: nat, b: nat)
    requires a < b < |FirstKeys(keys)|
    ensures var fk := FirstKeys(keys);
      exists i: nat | i < |keys| :: keys[i] == fk[a] && fk[b] !in keys[..i + 1]
  {
    var n := |keys| - 1;
    var init := FirstKeys(keys[..n]);
    if b < |init| {
      FirstAppearance(keys[..n], a, b);
      var i: nat :| i < n && keys[..n][i] == init[a] && init[b] !in keys[..n][..i + 1];
      assert keys[..n][..i + 1] == keys[..i + 1];
      assert keys[i] == FirstKeys(keys)[a];
    } else {
      FirstKeysExact(keys[..n], init[a]);
      FirstKeysExact(keys[..n], keys[n]);
      var i :| 0 <= i < n && keys[..n][i] == init[a];
      assert keys[..i + 1] <= keys[..n];
      assert keys[i] == FirstKeys(keys)[a];
    }
  }

  function Total<K, V>(groups: seq<Group<K, V>>): nat {
    if groups == [] then 0 else Total(groups[..|groups| - 1]) + |groups[|groups| - 1].items|
  }

  lemma KeysGrow<K, V>(pairs: seq<(K, V)>, k: K, v: V)
    ensures Keys(pairs + [(k, v)]) == Keys(pairs) + [k]
    ensures FirstKeys(Keys(pairs) + [k]) ==
      if k in FirstKeys(Keys(pairs)) then FirstKeys(Keys(pairs)) else FirstKeys(Keys(pairs)) + [k]
  {
    assert (Keys(pairs) + [k])[..|pairs|] == Keys(pairs);
  }

  lemma ItemsGrow<K, V>(pairs: seq<(K, V)>, k: K, v: V, other: K)
    ensures ItemsOf(pairs + [(k, v)], other) == ItemsOf(pairs, other) + (if other == k then [v] else [])
  {
    KeysGrow(pairs, k, v);
    var keys := Keys(pairs) + [k];
    assert keys[..|pairs|] == Keys(pairs);
    var at, at' := Positions(Keys(pairs), other), Positions(keys, other);
    assert at' == if other == k then at + [|pairs|] else at;
    forall i | 0 <= i < |at| ensures (pairs + [(k, v)])[at'[i]] == pairs[at[i]] {
    }
  }

  /** One more pair extends the group of its key, or opens a group at the end. */
  lemma GroupsGrow<K, V>(pairs: seq<(K, V)>, k: K, v: V)
    ensures var groups, grown := Groups(pairs), Groups(pairs + [(k, v)]);
      if k in FirstKeys(Keys(pairs))
      then |grown| == |groups| && forall g :: 0 <= g < |groups| ==>
        grown[g] == if groups[g].key == k then groups[g].(items := groups[g].items + [v]) else groups[g]
      else grown == groups + [Group(k, [v])]
  {
    hide ItemsOf;
    KeysGrow(pairs, k, v);
    var keys, grown := FirstKeys(Keys(pairs)), Groups(pairs + [(k, v)]);
    forall g | 0 <= g < |grown| ensures grown[g].items ==
      ItemsOf(pairs, grown[g].key) + (if grown[g].key == k then [v] else [])
    {
      ItemsGrow(pairs, k, v, grown[g].key);
    }
    if k !in keys {
      NoItems(pairs, k);
      forall g | 0 <= g < |keys| ensures grown[g] == Groups(pairs)[g] {
        assert keys[g] != k;
      }
      assert grown[|keys|] == Group(k, [v]);
    }
  }

  lemma NoItems<K, V>(pairs: seq<(K, V)>, k: K)
    requires k !in FirstKeys(Keys(pairs))
    ensures ItemsOf(pairs, k) == []
  {
    FirstKeysExact(Keys(pairs), k);
    NoPositions(Keys(pairs), k);
  }

  lemma {:induction false} NoPositions<K>(keys: seq<K>, k: K)
    requires k !in keys
    ensures Positions(keys, k) == []
  {
    if keys != [] {
      assert keys[|keys| - 1] in keys;
      NoPositions(keys[..|keys| - 1], k);
    }
  }

  lemma {:induction false} TotalGrows<K, V>(groups: seq<Group<K, V>>, grown: seq<Group<K, V>>, at: nat, v: V)
    requires |groups| == |grown| && at < |groups|
    requires forall g :: 0 <= g < |groups| ==>
      grown[g] == if g == at then groups[g].(items := groups[g].items + [v]) else groups[g]
    ensures Total(grown) == Total(groups) + 1
  {
    var n := |groups| - 1;
    if at == n {
      assert grown[..n] == groups[..n];
    } else {
      TotalGrows(groups[..n], grown[..n], at, v);
    }
  }

  lemma OneMore<K, V>(pairs: seq<(K, V)>, k: K, v: V)
    requires forall g <- Groups(pairs) :: g.items != []
    ensures var grown := Groups(pairs + [(k, v)]);
      Total(grown) == Total(Groups(pairs)) + 1 && forall g <- grown :: g.items != []
  {
    hide ItemsOf, FirstKeys, Positions;
    GroupsGrow(pairs, k, v);
    GroupKeys(pairs);
    var groups, grown := Groups(pairs), Groups(pairs + [(k, v)]);
    forall i | 0 <= i < |groups| ensures groups[i].items != [] {
      assert groups[i] in groups;
    }
    if k in FirstKeys(Keys(pairs)) {
      var at :| 0 <= at < |groups| && FirstKeys(Keys(pairs))[at] == k;
      assert groups[at].key == k;
      TotalGrows(groups, grown, at, v);
    } else {
      assert grown[..|groups|] == groups;
    }
  }

  lemma {:induction false} NoneLost<K, V>(pairs: seq<(K, V)>)
    ensures Total(Groups(pairs)) == |pairs|
    ensures forall g <- Groups(pairs) :: g.items != []
  {
    if pairs != [] {
      var n := |pairs| - 1;
      NoneLost(pairs[..n]);
      OneMore(pairs[..n], pairs[n].0, pairs[n].1);
      assert pairs[..n] + [(pairs[n].0, pairs[n].1)] == pairs;
    }
  }

  /**
   * Main result: grouping loses and duplicates nothing. The groups hold as many values as there
   * are pairs, no group is empty, keys are distinct, and a key has a group exactly when it occurs;
   * PositionsExact and FirstAppearance give the order within and between groups.
   */
  lemma GroupingConserves<K, V>(pairs: seq<(K, V)>, k: K)
    ensures Total(Groups(pairs)) == |pairs|
    ensures forall g <- Groups(pairs) :: g.items != []
    ensures Distinct(FirstKeys(Keys(pairs)))
    ensures (exists g <- Groups(pairs) :: g.key == k) <==> k in Keys(pairs)
  {
    hide ItemsOf, FirstKeys, Positions, Total;
    NoneLost(pairs);
    FirstKeysExact(Keys(pairs), k);
    var groups := Groups(pairs);
    if k in FirstKeys(Keys(pairs)) {
      var i :| 0 <= i < |groups| && FirstKeys(Keys(pairs))[i] == k;
      assert groups[i] in groups && groups[i].key == k;
    }
  }

  lemma GroupKeys<K, V>(pairs: seq<(K, V)>)
    ensures forall a, b :: 0 <= a < b < |Groups(pairs)| ==> Groups(pairs)[a].key != Groups(pairs)[b].key
    ensures forall a :: 0 <= a < |Groups(pairs)| ==> Groups(pairs)[a].key in FirstKeys(Keys(pairs))
  {
    if pairs != [] {
      FirstKeysExact(Keys(pairs), pairs[0].0);
    }
  }

  // ---- GET /jobs/user

  datatype Role = Consumer | DataProvider | InfraProvider

  datatype Status = Created | Requested | Approved | Rejected | Signed | Final | TeeEnabled | Withdrawn

  datatype JobParticipant = JobParticipant(
    jobId: string,
    contractId: string,
    technique: string,
    role: Role,
    participantId: string,
    userId: string,
    username: string,
    itemId: string,
    itemName: string,
    status: Status,
    createdAt: Time,
    finalizedAt: Option<Time>,
    teeEnabledAt: Option<Time>)

  datatype Part = Part(role: Role, participantId: string, userId: string, username: string,
                       itemId: string, itemName: string, status: Status)

  datatype UserJob = UserJob(
    jobId: string,
    contractId: string,
    technique: string,
    jobState: string,
    createdAt: Time,
    finalizedAt: Option<Time>,
    teeEnabledAt: Option<Time>,
    participation: seq<Part>)

  function PartOf(p: JobParticipant): Part {
    Part(p.role, p.participantId, p.userId, p.username, p.itemId, p.itemName, p.status)
  }

  function JobStateOf(p: JobParticipant): string {
    if p.teeEnabledAt.Some? then "tee_enabled" else if p.finalizedAt.Some? then "final" else "in_progress"
  }

  function HeaderOf(p: JobParticipant): UserJob {
    UserJob(p.jobId, p.contractId, p.technique, JobStateOf(p), p.createdAt, p.finalizedAt, p.teeEnabledAt, [])
  }

  function Parts(rows: seq<JobParticipant>): (r: seq<Part>)
    ensures |r| == |rows|
  {
    seq(|rows|, i requires 0 <= i < |rows| => PartOf(rows[i]))
  }

  function ByJob(rows: seq<JobParticipant>): (r: seq<(string, JobParticipant)>)
    ensures |r| == |rows|
  {
    seq(|rows|, i requires 0 <= i < |rows| => (rows[i].jobId, rows[i]))
  }

  /** A job is described by its first row and lists all of them. */
  predicate Shows(job: UserJob, group: Group<string, JobParticipant>) {
    group.items != [] && job == HeaderOf(group.items[0]).(participation := Parts(group.items))
    && job.jobId == group.key
  }

  predicate ShowAll(jobs: seq<UserJob>, groups: seq<Group<string, JobParticipant>>) {
    |jobs| == |groups| && forall g :: 0 <= g < |jobs| ==> Shows(jobs[g], groups[g])
  }

  /** The jobs so far, and where each stands among them. */
  ghost predicate Indexed(jobs: seq<UserJob>, index: map<string, nat>, pairs: seq<(string, JobParticipant)>) {
    && ShowAll(jobs, Groups(pairs))
    && (forall k :: k in index <==> k in FirstKeys(Keys(pairs)))
    && (forall k <- index :: index[k] < |jobs| && jobs[index[k]].jobId == k)
  }

  lemma JobOpened(jobs: seq<UserJob>, index: map<string, nat>, pairs: seq<(string, JobParticipant)>, p: JobParticipant)
    requires Indexed(jobs, index, pairs) && p.jobId !in index
    ensures Indexed(jobs + [HeaderOf(p).(participation := [PartOf(p)])], index[p.jobId := |jobs|],
                    pairs + [(p.jobId, p)])
  {
    hide Groups, FirstKeys;
    GroupsGrow(pairs, p.jobId, p);
    KeysGrow(pairs, p.jobId, p);
    assert Parts([p]) == [PartOf(p)];
  }

  lemma JobExtended(jobs: seq<UserJob>, index: map<string, nat>, pairs: seq<(string, JobParticipant)>,
                    p: JobParticipant)
    requires Indexed(jobs, index, pairs) && p.jobId in index
    ensures var i := index[p.jobId];
      Indexed(jobs[i := jobs[i].(participation := jobs[i].participation + [PartOf(p)])], index, pairs + [(p.jobId, p)])
  {
    hide Groups, FirstKeys;
    var groups, grown := Groups(pairs), Groups(pairs + [(p.jobId, p)]);
    GroupsGrow(pairs, p.jobId, p);
    KeysGrow(pairs, p.jobId, p);
    GroupKeys(pairs);
    var i := index[p.jobId];
    var jobs' := jobs[i := jobs[i].(participation := jobs[i].participation + [PartOf(p)])];
    forall g | 0 <= g < |jobs| ensures Shows(jobs'[g], grown[g]) {
      assert Shows(jobs[g], groups[g]) && Shows(jobs[i], groups[i]);
      assert Parts(groups[g].items + [p]) == Parts(groups[g].items) + [PartOf(p)];
    }
  }

  /** What a shown job says: its state read off the first row's stamps, and every row of its own. */
  lemma ShownExactly(job: UserJob, group: Group<string, JobParticipant>)
    requires Shows(job, group)
    ensures var first := group.items[0];
      && job.jobId == group.key && job.contractId == first.contractId && job.technique == first.technique
      && job.createdAt == first.createdAt && job.finalizedAt == first.finalizedAt
      && job.teeEnabledAt == first.teeEnabledAt
      && (job.jobState == "tee_enabled" <==> first.teeEnabledAt.Some?)
      && (job.jobState == "final" <==> first.teeEnabledAt.None? && first.finalizedAt.Some?)
      && (job.jobState == "in_progress" <==> first.teeEnabledAt.None? && first.finalizedAt.None?)
      && |job.participation| == |group.items|
      && forall i :: 0 <= i < |group.items| ==>
        var part, row := job.participation[i], group.items[i];
        && part.role == row.role && part.participantId == row.participantId && part.userId == row.userId
        && part.username == row.username && part.itemId == row.itemId && part.itemName == row.itemName
        && part.status == row.status
  {
    assert "tee_enabled"[0] == 't' && "final"[0] == 'f' && "in_progress"[0] == 'i';
  }

  /** groupUserJobs: one entry per job, in first-appearance order, with exactly that job's rows in order. */
  method GroupUserJobs(rows: seq<JobParticipant>) returns (jobs: seq<UserJob>)
    ensures ShowAll(jobs, Groups(ByJob(rows)))
  {
    jobs := [];
    var index: map<string, nat> := map[];
    for n := 0 to |rows|
      invariant Indexed(jobs, index, ByJob(rows[..n]))
    {
      var p := rows[n];
      ghost var pairs := ByJob(rows[..n]);
      assert ByJob(rows[..n + 1]) == pairs + [(p.jobId, p)];
      if p.jobId !in index {
        JobOpened(jobs, index, pairs, p);
        jobs := jobs + [HeaderOf(p).(participation := [])];
        index := index[p.jobId := |jobs| - 1];
      } else {
        JobExtended(jobs, index, pairs, p);
      }
      var i := index[p.jobId];
      jobs := jobs[i := jobs[i].(participation := jobs[i].participation + [PartOf(p)])];
    }
    assert rows[..|rows|] == rows;
  }

  function Kept(rows: seq<JobParticipant>, keep: JobParticipant -> bool): seq<JobParticipant> {
    if rows == [] then []
    else
      Kept(rows[..|rows| - 1], keep) + (if keep(rows[|rows| - 1]) then [rows[|rows| - 1]] else [])
  }

  /** filterJobParticipants, with the listing's own keep: all parts, the consumer's, or a provider's open requests. */
  method FilterJobParticipants(rows: seq<JobParticipant>,
                               keep: JobParticipant -> bool) returns (out: seq<JobParticipant>)
    ensures out == Kept(rows, keep)
  {
    out := [];
    for i := 0 to |rows|
      invariant out == Kept(rows[..i], keep)
    {
      assert rows[..i + 1][..i] == rows[..i];
      if keep(rows[i]) {
        out := out + [rows[i]];
      }
    }
    assert rows[..|rows|] == rows;
  }

  lemma {:induction false} KeptExact(rows: seq<JobParticipant>, keep: JobParticipant -> bool, p: JobParticipant)
    ensures p in Kept(rows, keep) <==> p in rows && keep(p)
  {
    if rows != [] {
      KeptExact(rows[..|rows| - 1], keep, p);
      assert rows == rows[..|rows| - 1] + [rows[|rows| - 1]];
    }
  }

  /** A job is listed exactly when some row of it is kept. */
  lemma ListedJobs(rows: seq<JobParticipant>, keep: JobParticipant -> bool, jobs: seq<UserJob>, jobId: string)
    requires ShowAll(jobs, Groups(ByJob(Kept(rows, keep))))
    ensures (exists job <- jobs :: job.jobId == jobId) <==> (exists p <- rows :: p.jobId == jobId && keep(p))
  {
    hide Kept, Shows;
    var kept := Kept(rows, keep);
    var groups := Groups(ByJob(kept));
    GroupingConserves(ByJob(kept), jobId);
    forall g | 0 <= g < |jobs| ensures jobs[g].jobId == groups[g].key {
      assert Shows(jobs[g], groups[g]);
      ShowsKey(jobs[g], groups[g]);
    }
    if job :| job in jobs && job.jobId == jobId {
      var g :| 0 <= g < |jobs| && jobs[g] == job;
      assert groups[g] in groups;
      var n :| 0 <= n < |kept| && Keys(ByJob(kept))[n] == jobId;
      KeptExact(rows, keep, kept[n]);
      assert kept[n] in rows && kept[n].jobId == jobId && keep(kept[n]);
    }
    if p :| p in rows && p.jobId == jobId && keep(p) {
      KeptExact(rows, keep, p);
      var n :| 0 <= n < |kept| && kept[n] == p;
      assert Keys(ByJob(kept))[n] == jobId;
      var group :| group in groups && group.key == jobId;
      var g :| 0 <= g < |groups| && groups[g] == group;
      assert jobs[g] in jobs;
    }
  }

  lemma ShowsKey(job: UserJob, group: Group<string, JobParticipant>)
    requires Shows(job, group)
    ensures job.jobId == group.key
  {
  }

  // ---- a generated contract's requests and participants

  datatype RequestItem = RequestItem(id: string, name: string)

  type RequestKey = (Kind, string)

  datatype JobRequest = JobRequest(
    kind: Kind,
    providerId: string,
    hash: Hash,
    contract: Contract,
    items: seq<RequestItem>)

  /** The infra's name on the contract; a repeated id takes the last one. */
  function InfraName(ips: seq<InfraProviderParty>, id: string): string {
    if ips == [] then ""
    else if ips[|ips| - 1].id == id then ips[|ips| - 1].name
    else InfraName(ips[..|ips| - 1], id)
  }

  function DataItems(ps: seq<DataProviderParty>): seq<(RequestKey, RequestItem)> {
    if ps == [] then []
    else
      var p := ps[|ps| - 1];
      DataItems(ps[..|ps| - 1]) +
      (if p.id == "" then [] else [((Data, PartyProviderId(p)), RequestItem(ApprovalItem(p), p.datasetName))])
  }

  function InfraItemsOf(ips: seq<InfraProviderParty>, owners: seq<InfraOwner>): seq<(RequestKey, RequestItem)> {
    if owners == [] then []
    else
      var o := owners[|owners| - 1];
      InfraItemsOf(ips, owners[..|owners| - 1]) +
      (if o.providerId == "" then []
       else [((Infra, o.providerId), RequestItem(o.infraId, InfraName(ips, o.infraId)))])
  }

  /** Every item of the contract with a known provider, in contract order. */
  function JobItems(c: Contract, owners: seq<InfraOwner>): seq<(RequestKey, RequestItem)> {
    DataItems(c.dataProviders) + InfraItemsOf(c.infraProviders, owners)
  }

  function RequestsFor(c: Contract, hash: Hash, groups: seq<Group<RequestKey, RequestItem>>): (r: seq<JobRequest>)
    ensures |r| == |groups|
  {
    seq(|groups|, g requires 0 <= g < |groups| =>
      JobRequest(groups[g].key.0, groups[g].key.1, hash, c, groups[g].items))
  }

  /** The requests being built, and where each (role, provider) stands among them. */
  class RequestBuilder {
    const contract: Contract
    const hash: Hash
    var reqs: seq<JobRequest>
    var index: map<RequestKey, nat>
    ghost var pairs: seq<(RequestKey, RequestItem)>

    ghost predicate Valid()
      reads this
    {
      && reqs == RequestsFor(contract, hash, Groups(pairs))
      && (forall k :: k in index <==> k in FirstKeys(Keys(pairs)))
      && (forall k <- index :: index[k] < |reqs| && (reqs[index[k]].kind, reqs[index[k]].providerId) == k)
    }

    constructor (contract: Contract, hash: Hash)
      ensures Valid() && pairs == [] && this.contract == contract && this.hash == hash
    {
      this.contract, this.hash := contract, hash;
      reqs, index, pairs := [], map[], [];
    }

    /** The add closure. */
    method Add(kind: Kind, providerId: string, item: RequestItem)
      requires Valid()
      modifies this
      ensures Valid() && pairs == old(pairs) + [((kind, providerId), item)]
    {
      hide FirstKeys, Keys, Groups;
      var key := (kind, providerId);
      ghost var groups, grown := Groups(pairs), Groups(pairs + [(key, item)]);
      GroupsGrow(pairs, key, item);
      KeysGrow(pairs, key, item);
      GroupKeys(pairs);
      if key !in index {
        reqs := reqs + [JobRequest(kind, providerId, hash, contract, [])];
        index := index[key := |reqs| - 1];
      }
      var i := index[key];
      reqs := reqs[i := reqs[i].(items := reqs[i].items + [item])];
      pairs := pairs + [(key, item)];
      forall g | 0 <= g < |reqs| ensures reqs[g] == RequestsFor(contract, hash, grown)[g] {
        if g < |groups| {
          assert groups[g].key == key <==> g == i;
        }
      }
    }
  }

  /** jobRequests: one request per role and provider, with their items in contract order. */
  method JobRequests(c: Contract, hash: Hash, owners: seq<InfraOwner>) returns (reqs: seq<JobRequest>)
    ensures reqs == RequestsFor(c, hash, Groups(JobItems(c, owners)))
  {
    var b := new RequestBuilder(c, hash);
    AddDatasets(b, c.dataProviders);
    AddInfras(b, c.infraProviders, owners);
    assert [] + DataItems(c.dataProviders) == DataItems(c.dataProviders);
    reqs := b.reqs;
  }

  method AddDatasets(b: RequestBuilder, ps: seq<DataProviderParty>)
    requires b.Valid()
    modifies b
    ensures b.Valid() && b.pairs == old(b.pairs) + DataItems(ps)
  {
    hide PartyProviderId, ApprovalItem, RequestBuilder.Valid;
    for i := 0 to |ps|
      invariant b.Valid() && b.pairs == old(b.pairs) + DataItems(ps[..i])
    {
      assert ps[..i + 1][..i] == ps[..i];
      if ps[i].id != "" {
        b.Add(Data, PartyProviderId(ps[i]), RequestItem(ApprovalItem(ps[i]), ps[i].datasetName));
      }
    }
    assert ps[..|ps|] == ps;
  }

  method AddInfras(b: RequestBuilder, ips: seq<InfraProviderParty>, owners: seq<InfraOwner>)
    requires b.Valid()
    modifies b
    ensures b.Valid() && b.pairs == old(b.pairs) + InfraItemsOf(ips, owners)
  {
    hide InfraName, RequestBuilder.Valid;
    var infraNames := InfraNames(ips);
    for i := 0 to |owners|
      invariant b.Valid() && b.pairs == old(b.pairs) + InfraItemsOf(ips, owners[..i])
    {
      assert owners[..i + 1][..i] == owners[..i];
      var o := owners[i];
      if o.providerId != "" {
        var name := if o.infraId in infraNames then infraNames[o.infraId] else "";
        b.Add(Infra, o.providerId, RequestItem(o.infraId, name));
      }
    }
    assert owners[..|owners|] == owners;
  }

  method InfraNames(ips: seq<InfraProviderParty>) returns (names: map<string, string>)
    ensures forall id :: InfraName(ips, id) == if id in names then names[id] else ""
  {
    names := map[];
    for i := 0 to |ips|
      invariant forall id :: InfraName(ips[..i], id) == if id in names then names[id] else ""
    {
      assert ips[..i + 1][..i] == ips[..i];
      names := names[ips[i].id := ips[i].name];
    }
    assert ips[..|ips|] == ips;
  }

  /** What the participant rows say was asked, and of whom; rows with no known provider ask nobody. */
  function Asked(rows: seq<JobParticipant>): seq<(RequestKey, RequestItem)> {
    if rows == [] then []
    else
      var p := rows[|rows| - 1];
      Asked(rows[..|rows| - 1]) +
      (if p.role == Consumer || p.participantId == "" then []
       else [((if p.role == DataProvider then Data else Infra, p.participantId), RequestItem(p.itemId, p.itemName))])
  }

  lemma AskedGrows(rows: seq<JobParticipant>, p: JobParticipant)
    ensures Asked(rows + [p]) == Asked(rows) + Asked([p])
  {
    assert (rows + [p])[..|rows|] == rows && [p][..0] == [];
  }

  /** A dataset's row, whether or not its provider is known. */
  function DatasetRow(c: Contract, p: DataProviderParty, now: Time): JobParticipant {
    JobParticipant(c.jobId, c.contractId, c.technique, DataProvider, if p.id != "" then PartyProviderId(p) else "",
                   "", "", ApprovalItem(p), p.datasetName, Requested, now, None, None)
  }

  /** A selected infra's row, whether or not its owner is known. */
  function InfraRow(c: Contract, o: InfraOwner, now: Time): JobParticipant {
    JobParticipant(c.jobId, c.contractId, c.technique, InfraProvider, o.providerId,
                   "", "", o.infraId, InfraName(c.infraProviders, o.infraId), Requested, now, None, None)
  }

  /** The rows before any participant is filled in. */
  function BaseRow(c: Contract, now: Time): JobParticipant {
    JobParticipant(c.jobId, c.contractId, c.technique, Consumer, "", "", "", "", "", Created, now, None, None)
  }

  lemma DatasetAsked(c: Contract, ps: seq<DataProviderParty>, rows: seq<JobParticipant>, now: Time)
    requires ps != [] && Asked(rows) == DataItems(ps[..|ps| - 1])
    ensures Asked(rows + [DatasetRow(c, ps[|ps| - 1], now)]) == DataItems(ps)
  {
    AskedGrows(rows, DatasetRow(c, ps[|ps| - 1], now));
    AskedOne(DatasetRow(c, ps[|ps| - 1], now));
  }

  lemma InfraAsked(c: Contract, owners: seq<InfraOwner>, rows: seq<JobParticipant>, now: Time)
    requires owners != [] && Asked(rows) == InfraItemsOf(c.infraProviders, owners[..|owners| - 1])
    ensures Asked(rows + [InfraRow(c, owners[|owners| - 1], now)]) == InfraItemsOf(c.infraProviders, owners)
  {
    hide InfraName;
    AskedGrows(rows, InfraRow(c, owners[|owners| - 1], now));
    AskedOne(InfraRow(c, owners[|owners| - 1], now));
  }

  lemma {:induction false} AskedOfConcat(a: seq<JobParticipant>, b: seq<JobParticipant>)
    ensures Asked(a + b) == Asked(a) + Asked(b)
  {
    if b == [] {
      assert a + b == a;
    } else {
      var n := |b| - 1;
      assert (a + b)[..|a + b| - 1] == a + b[..n];
      AskedOfConcat(a, b[..n]);
    }
  }

  method DatasetRows(c: Contract, now: Time) returns (rows: seq<JobParticipant>)
    ensures |rows| == |c.dataProviders|
    ensures forall i :: 0 <= i < |rows| ==> rows[i] == DatasetRow(c, c.dataProviders[i], now)
    ensures Asked(rows) == DataItems(c.dataProviders)
  {
    hide PartyProviderId, ApprovalItem, Asked, DataItems;
    var ps := c.dataProviders;
    rows := [];
    assert Asked(rows) == DataItems([]) by { AskedNothing(); NothingAsked(); }
    for i := 0 to |ps|
      invariant |rows| == i && forall k :: 0 <= k < i ==> rows[k] == DatasetRow(c, ps[k], now)
      invariant Asked(rows) == DataItems(ps[..i])
    {
      assert ps[..i + 1][..i] == ps[..i];
      var p := BaseRow(c, now).(role := DataProvider, status := Requested, itemId := ApprovalItem(ps[i]),
                                itemName := ps[i].datasetName);
      if ps[i].id != "" {
        p := p.(participantId := PartyProviderId(ps[i]));
      }
      assert p == DatasetRow(c, ps[i], now);
      DatasetAsked(c, ps[..i + 1], rows, now);
      rows := rows + [p];
    }
    assert ps[..|ps|] == ps;
  }

  method InfraRows(c: Contract, owners: seq<InfraOwner>, now: Time) returns (rows: seq<JobParticipant>)
    ensures |rows| == |owners|
    ensures forall i :: 0 <= i < |rows| ==> rows[i] == InfraRow(c, owners[i], now)
    ensures Asked(rows) == InfraItemsOf(c.infraProviders, owners)
  {
    hide InfraName, Asked, InfraItemsOf;
    var infraNames := InfraNames(c.infraProviders);
    rows := [];
    assert Asked(rows) == InfraItemsOf(c.infraProviders, []) by { AskedNothing(); NothingAsked(); }
    for i := 0 to |owners|
      invariant |rows| == i && forall k :: 0 <= k < i ==> rows[k] == InfraRow(c, owners[k], now)
      invariant Asked(rows) == InfraItemsOf(c.infraProviders, owners[..i])
    {
      assert owners[..i + 1][..i] == owners[..i];
      var o := owners[i];
      var name := if o.infraId in infraNames then infraNames[o.infraId] else "";
      var p := BaseRow(c, now).(role := InfraProvider, status := Requested, participantId := o.providerId,
                                itemId := o.infraId, itemName := name);
      assert p == InfraRow(c, o, now);
      InfraAsked(c, owners[..i + 1], rows, now);
      rows := rows + [p];
    }
    assert owners[..|owners|] == owners;
  }

  lemma NothingAsked()
    ensures DataItems([]) == [] && forall ips :: InfraItemsOf(ips, []) == []
  {
  }

  lemma AskedNothing()
    ensures Asked([]) == []
  {
  }

  lemma AskedOne(p: JobParticipant)
    ensures Asked([p]) ==
      if p.role == Consumer || p.participantId == "" then []
      else [((if p.role == DataProvider then Data else Infra, p.participantId), RequestItem(p.itemId, p.itemName))]
  {
    assert [p][..0] == [];
  }

  /**
   * jobParticipantRows: the consumer, then each dataset and each owned infra. The providers it
   * lists as asked, item by item, are exactly those the job requests go to.
   */
  method JobParticipantRows(c: Contract, consumerUsername: string, owners: seq<InfraOwner>, now: Time)
    returns (rows: seq<JobParticipant>)
    ensures |rows| == 1 + |c.dataProviders| + |owners|
    ensures rows[0] == JobParticipant(c.jobId, c.contractId, c.technique, Consumer, c.user.id, c.user.id,
                                      consumerUsername, "", "", Created, now, None, None)
    ensures forall i :: 0 <= i < |c.dataProviders| ==> rows[1 + i] == DatasetRow(c, c.dataProviders[i], now)
    ensures forall i :: 0 <= i < |owners| ==> rows[1 + |c.dataProviders| + i] == InfraRow(c, owners[i], now)
    ensures Asked(rows[1..]) == JobItems(c, owners)
  {
    hide DatasetRow, InfraRow, Asked, DataItems, InfraItemsOf;
    var consumer := BaseRow(c, now).(participantId := c.user.id, userId := c.user.id, username := consumerUsername);
    var datasets := DatasetRows(c, now);
    var infras := InfraRows(c, owners, now);
    rows := [consumer] + datasets + infras;
    assert rows[1..] == datasets + infras;
    AskedOfConcat(datasets, infras);
  }

  /** The item a dataset is asked about: its catalogue id, else its name, under its provider when one is known. */
  predicate AsksDataset(p: DataProviderParty, key: RequestKey, item: RequestItem) {
    && p.id != "" && key == (Data, PartyProviderId(p))
    && item == RequestItem(if p.datasetId != "" then p.datasetId else p.datasetName, p.datasetName)
  }

  /** The last infra with the id, if any, has the name. */
  predicate NamesInfra(ips: seq<InfraProviderParty>, id: string, name: string) {
    if exists ip <- ips :: ip.id == id
    then
      exists k: nat | k < |ips| :: ips[k].id == id && ips[k].name == name
        && forall m: nat :: k < m < |ips| ==> ips[m].id != id
    else name == ""
  }

  /** The items asked about are exactly the datasets with a provider and the infras with an owner. */
  lemma {:induction false} JobItemsExactly(c: Contract, owners: seq<InfraOwner>, key: RequestKey, item: RequestItem)
    ensures (key, item) in JobItems(c, owners) <==>
      || (exists p <- c.dataProviders :: AsksDataset(p, key, item))
      || (exists o <- owners ::
            && o.providerId != "" && key == (Infra, o.providerId) && item.id == o.infraId
            && NamesInfra(c.infraProviders, o.infraId, item.name))
  {
    hide AsksDataset, NamesInfra, DataItems, InfraItemsOf;
    DataItemsExactly(c.dataProviders, key, item);
    InfraItemsExactly(c.infraProviders, owners, key, item);
  }

  lemma {:induction false} DataItemsExactly(ps: seq<DataProviderParty>, key: RequestKey, item: RequestItem)
    ensures (key, item) in DataItems(ps) <==> exists p <- ps :: AsksDataset(p, key, item)
  {
    hide PartyProviderId, AsksDataset;
    if ps != [] {
      var n := |ps| - 1;
      DataItemsExactly(ps[..n], key, item);
      assert ps == ps[..n] + [ps[n]];
      OneDatasetAsks(ps[n], key, item);
    }
  }

  lemma OneDatasetAsks(p: DataProviderParty, key: RequestKey, item: RequestItem)
    ensures AsksDataset(p, key, item) <==>
      p.id != "" && (key, item) == ((Data, PartyProviderId(p)), RequestItem(ApprovalItem(p), p.datasetName))
  {
    hide PartyProviderId;
  }

  lemma {:induction false} InfraNameExactly(ips: seq<InfraProviderParty>, id: string, name: string)
    ensures InfraName(ips, id) == name <==> NamesInfra(ips, id, name)
  {
    if ips != [] {
      var n := |ips| - 1;
      InfraNameExactly(ips[..n], id, name);
      assert ips == ips[..n] + [ips[n]];
      assert forall m: nat :: m < n ==> ips[..n][m] == ips[m];
    }
  }

  lemma {:induction false} InfraItemsExactly(ips: seq<InfraProviderParty>, owners: seq<InfraOwner>, key: RequestKey,
                                             item: RequestItem)
    ensures (key, item) in InfraItemsOf(ips, owners) <==>
      exists o <- owners ::
        && o.providerId != "" && key == (Infra, o.providerId) && item.id == o.infraId
        && NamesInfra(ips, o.infraId, item.name)
  {
    hide NamesInfra, InfraName;
    if owners != [] {
      var n := |owners| - 1;
      InfraItemsExactly(ips, owners[..n], key, item);
      assert owners == owners[..n] + [owners[n]];
      InfraNameExactly(ips, owners[n].infraId, item.name);
    }
  }

  /** Every item with a known provider is in the one request of its role and provider, and in no other. */
  lemma RequestsCover(c: Contract, hash: Hash, owners: seq<InfraOwner>, kind: Kind, providerId: string)
    ensures var items := JobItems(c, owners);
      var reqs := RequestsFor(c, hash, Groups(items));
      (if (kind, providerId) in Keys(items)
       then exists r: nat | r < |reqs| ::
         reqs[r] == JobRequest(kind, providerId, hash, c, ItemsOf(items, (kind, providerId)))
         && forall q :: 0 <= q < |reqs| && q != r ==> (reqs[q].kind, reqs[q].providerId) != (kind, providerId)
       else forall q <- reqs :: (q.kind, q.providerId) != (kind, providerId))
  {
    var items := JobItems(c, owners);
    var groups, key := Groups(items), (kind, providerId);
    var reqs := RequestsFor(c, hash, groups);
    FirstKeysExact(Keys(items), key);
    GroupKeys(items);
    if key in Keys(items) {
      var r: nat :| r < |groups| && FirstKeys(Keys(items))[r] == key;
      assert groups[r].key == key;
      forall q | 0 <= q < |reqs| && q != r ensures (reqs[q].kind, reqs[q].providerId) != key {
        assert groups[q].key != groups[r].key;
      }
      assert reqs[r] == JobRequest(kind, providerId, hash, c, ItemsOf(items, key));
    } else {
      forall q | 0 <= q < |reqs| ensures (reqs[q].kind, reqs[q].providerId) != key {
        assert groups[q].key in FirstKeys(Keys(items));
      }
    }
  }
}
