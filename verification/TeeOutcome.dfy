/**
 * TEE run outcomes (internal/httpapi/tee_outcome.go, internal/db/contract_events.go and the
 * run_started text of internal/httpapi/job_tee.go). The events table has no column for the
 * coordinator's job: which run an event is about is read back out of its text.
 */
module TeeOutcome {
  import opened Wrappers
  import opened Text

  // ---- texts

  predicate IsIdChar(ch: char) {
    'A' <= ch <= 'Z' || 'a' <= ch <= 'z' || '0' <= ch <= '9' || ch == '.' || ch == '_' || ch == '-'
  }

  /** [A-Za-z0-9._-]+ */
  predicate IsCoordId(s: string) {
    s != "" && forall k :: 0 <= k < |s| ==> IsIdChar(s[k])
  }

  predicate At(text: string, part: string, i: nat) {
    i + |part| <= |text| && text[i..i + |part|] == part
  }

  /** strpos(text, part) > 0 */
  predicate Contains(text: string, part: string) {
    exists i: nat | i <= |text| :: At(text, part, i)
  }

  const KEY := "coordinator job "

  function Marker(id: string): string {
    "(" + KEY + id + ")"
  }

  function StartText(id: string): string {
    if id == "" then "TEE run started" else "TEE run started " + Marker(id)
  }

  datatype JobState = Running | Succeeded | Failed | Cancelled

  /** The part of the coordinator's answer about a job that its outcome needs. */
  datatype CoordinatorJob = CoordinatorJob(jobId: string, contractId: string, state: JobState, reason: string)
  {
    predicate Terminal() {
      state != Running
    }
  }

  const NO_REASON := "no reason given by the coordinator"

  function Opening(state: JobState): string {
    match state
    case Failed => "TEE run failed: "
    case Cancelled => "TEE run cancelled: "
    case _ => "TEE run succeeded"
  }

  /** The coordinator's own words in the outcome text; a success quotes none. */
  function Quoted(job: CoordinatorJob): string {
    if job.state == Succeeded || job.state == Running then ""
    else
      var reason := TrimSpace(job.reason);
      if reason == "" then NO_REASON else reason
  }

  function OutcomeText(job: CoordinatorJob): string {
    Opening(job.state) + Quoted(job) + " " + Marker(job.jobId)
  }

  // ---- substring(detail from 'coordinator job ([A-Za-z0-9._-]+)')

  function IdRun(s: string): string {
    if s != "" && IsIdChar(s[0]) then [s[0]] + IdRun(s[1..]) else ""
  }

  function Extract(text: string): Option<string> {
    if text == "" then None
    else if KEY <= text && IdRun(text[|KEY|..]) != "" then Some(IdRun(text[|KEY|..]))
    else Extract(text[1..])
  }

  // ---- the events table

  datatype EventKind = RunStarted | RunSucceeded | RunExecutionFailed | OtherKind(name: string)

  datatype Event = Event(contractId: string, jobId: string, kind: EventKind, detail: string, at: int)

  predicate IsOutcome(kind: EventKind) {
    kind == RunSucceeded || kind == RunExecutionFailed
  }

  predicate Names(e: Event, contractId: string, coordId: string) {
    e.contractId == contractId && IsOutcome(e.kind) && Contains(e.detail, Marker(coordId))
  }

  predicate HasOutcome(log: seq<Event>, contractId: string, coordId: string) {
    exists e <- log :: Names(e, contractId, coordId)
  }

  /** The job_id the contract's newest event with one was recorded under. */
  function EventJobId(log: seq<Event>, contractId: string): string {
    if log == [] then ""
    else
      var e := log[|log| - 1];
      if e.contractId == contractId && e.jobId != "" then e.jobId else EventJobId(log[..|log| - 1], contractId)
  }

  datatype Unsettled = Unsettled(contractId: string, coordId: string)

  /** Runs started since a time whose text names a coordinator job no outcome names. */
  function UnsettledRuns(log: seq<Event>, all: seq<Event>, since: int): seq<Unsettled> {
    if log == [] then []
    else
      var e := log[|log| - 1];
      UnsettledRuns(log[..|log| - 1], all, since) +
      (match Extract(e.detail)
       case Some(id) =>
         if e.kind == RunStarted && e.at >= since && !HasOutcome(all, e.contractId, id)
         then [Unsettled(e.contractId, id)] else []
       case None => [])
  }

  function OutcomeEvent(job: CoordinatorJob, jobId: string, at: int): Event {
    Event(job.contractId, jobId, if job.state == Succeeded then RunSucceeded else RunExecutionFailed,
          OutcomeText(job), at)
  }

  /** The job an outcome is recorded under: the contract row's, else its newest event's. */
  function OwningJob(log: seq<Event>, contractId: string, rowJobId: string): string {
    if rowJobId != "" then rowJobId else EventJobId(log, contractId)
  }

  predicate Identified(job: CoordinatorJob) {
    job.Terminal() && job.contractId != "" && job.jobId != ""
  }

  /** settleTEERun as one step. */
  function Settle(log: seq<Event>, job: CoordinatorJob, rowJobId: string, at: int): seq<Event> {
    if !Identified(job) || HasOutcome(log, job.contractId, job.jobId) then log
    else
      var jobId := OwningJob(log, job.contractId, rowJobId);
      if jobId == "" then log else log + [OutcomeEvent(job, jobId, at)]
  }

  // ---- what the texts say

  lemma MarkerChars(id: string)
    requires IsCoordId(id)
    ensures var m := Marker(id);
      && |m| == |id| + 18 && m[0] == '(' && m[|m| - 1] == ')'
      && (forall k :: 0 < k < |m| ==> m[k] != '(')
      && (forall k :: 0 <= k < |m| - 1 ==> m[k] != ')')
  {
    var m := Marker(id);
    forall k | 0 < k < |m| - 1 ensures m[k] != '(' && m[k] != ')' {
      if k < 17 {
        assert m[k] == KEY[k - 1];
      } else {
        assert m[k] == id[k - 17];
      }
    }
  }

  lemma MarkerInjective(a: string, b: string)
    requires Marker(a) == Marker(b)
    ensures a == b
  {
    assert a == Marker(a)[17..|Marker(a)| - 1];
    assert b == Marker(b)[17..|Marker(b)| - 1];
  }

  lemma OpeningHasNoParen(state: JobState)
    ensures '(' !in Opening(state)
  {
  }

  lemma AtChars(text: string, part: string, i: nat)
    requires At(text, part, i)
    ensures forall k :: i <= k < i + |part| ==> text[k] == part[k - i]
  {
    forall k | i <= k < i + |part| ensures text[k] == part[k - i] {
      assert text[i..i + |part|][k - i] == text[k];
    }
  }

  /** Where an outcome text of job B can mention A: in the quoted reason, or because A is B. */
  lemma MarkerPosition(job: CoordinatorJob, a: string, i: nat)
    requires IsCoordId(a) && IsCoordId(job.jobId)
    requires At(OutcomeText(job), Marker(a), i)
    ensures a == job.jobId || Contains(Quoted(job), Marker(a))
  {
    hide Opening, Quoted, Marker;
    var p, r, m, n := Opening(job.state), Quoted(job), Marker(a), Marker(job.jobId);
    var t, q := OutcomeText(job), |Opening(job.state)| + |Quoted(job)|;
    assert t == p + r + " " + n;
    MarkerChars(a);
    MarkerChars(job.jobId);
    OpeningHasNoParen(job.state);
    AtChars(t, m, i);
    assert t[q] == ' ' && t[q + 1] == '(';
    assert i >= |p| by {
      assert t[..|p|] == p;
    }
    if i < q {
      assert i + |m| <= q;
      assert t[i..i + |m|] == r[i - |p|..i - |p| + |m|];
      assert At(r, m, i - |p|);
    } else {
      assert t[q + 1..] == n;
      assert i == q + 1;
      assert t[i..i + |m|] == n[..|m|];
      assert m[|m| - 1] == n[|m| - 1];
      assert m == n;
      MarkerInjective(a, job.jobId);
    }
  }

  /**
   * Main result: an outcome text names its own run; it names another run exactly when the
   * coordinator's reason quotes that run's marker.
   */
  lemma OutcomeNames(job: CoordinatorJob, a: string)
    requires IsCoordId(a) && IsCoordId(job.jobId)
    ensures Contains(OutcomeText(job), Marker(a)) <==> a == job.jobId || Contains(Quoted(job), Marker(a))
  {
    hide Opening, Quoted, Marker;
    if Contains(OutcomeText(job), Marker(a)) {
      var i: nat :| i <= |OutcomeText(job)| && At(OutcomeText(job), Marker(a), i);
      MarkerPosition(job, a, i);
    }
    if a == job.jobId {
      OwnMarker(job);
    } else if Contains(Quoted(job), Marker(a)) {
      var p, r, m := Opening(job.state), Quoted(job), Marker(a);
      var i: nat :| i <= |r| && At(r, m, i);
      var t := OutcomeText(job);
      assert t[|p|..|p| + |r|] == r;
      assert t[|p| + i..|p| + i + |m|] == t[|p|..|p| + |r|][i..i + |m|];
      assert At(t, m, |p| + i);
    }
  }

  /** Whatever the job id, the recorded text contains the marker the check searches for. */
  lemma OwnMarker(job: CoordinatorJob)
    ensures Contains(OutcomeText(job), Marker(job.jobId))
  {
    var t, q := OutcomeText(job), |Opening(job.state)| + |Quoted(job)| + 1;
    assert t[q..q + |Marker(job.jobId)|] == Marker(job.jobId);
    assert At(t, Marker(job.jobId), q);
  }

  lemma {:induction false} IdRunOfConcat(id: string, rest: string)
    requires forall k :: 0 <= k < |id| ==> IsIdChar(id[k])
    requires rest != "" && !IsIdChar(rest[0])
    ensures IdRun(id + rest) == id
  {
    if id == "" {
      assert id + rest == rest;
    } else {
      assert (id + rest)[1..] == id[1..] + rest;
      IdRunOfConcat(id[1..], rest);
    }
  }

  lemma {:induction false} ExtractSkips(before: string, text: string)
    requires 'c' !in before
    ensures Extract(before + text) == Extract(text)
  {
    if before == "" {
      assert before + text == text;
    } else {
      assert (before + text)[0] == before[0] && before[0] in before;
      assert KEY[0] == 'c';
      assert (before + text)[1..] == before[1..] + text;
      ExtractSkips(before[1..], text);
    }
  }

  lemma {:induction false} IdRunIsIds(s: string)
    ensures forall k :: 0 <= k < |IdRun(s)| ==> IsIdChar(IdRun(s)[k])
  {
    if s != "" && IsIdChar(s[0]) {
      IdRunIsIds(s[1..]);
    }
  }

  lemma {:induction false} ExtractIsId(text: string)
    ensures Extract(text).Some? ==> IsCoordId(Extract(text).value)
  {
    if text != "" {
      if KEY <= text {
        IdRunIsIds(text[|KEY|..]);
      }
      ExtractIsId(text[1..]);
    }
  }

  /** Round trip: the job id read back from a run_started text is the one printed, for exactly the ids allowed. */
  lemma StartRoundTrip(id: string)
    ensures Extract(StartText(id)) == Some(id) <==> IsCoordId(id)
  {
    ExtractIsId(StartText(id));
    if IsCoordId(id) {
      var before, text := "TEE run started (", KEY + id + ")";
      assert StartText(id) == before + text;
      ExtractSkips(before, text);
      assert text[|KEY|..] == id + ")";
      IdRunOfConcat(id, ")");
    }
  }

  // ---- what settling records

  /** Event j is the contract's newest with a job id, and that id is owner. */
  predicate NewestOwnerAt(log: seq<Event>, contractId: string, owner: string, j: nat) {
    && j < |log| && log[j].contractId == contractId && log[j].jobId == owner && owner != ""
    && forall m: nat :: j < m < |log| && log[m].contractId == contractId ==> log[m].jobId == ""
  }

  /** owner is the contract row's job id, else that of the contract's newest event with one. */
  predicate OwnedBy(log: seq<Event>, contractId: string, rowJobId: string, owner: string) {
    if rowJobId != "" then owner == rowJobId
    else exists j: nat | j < |log| :: NewestOwnerAt(log, contractId, owner, j)
  }

  lemma {:induction false} EventJobIdExactly(log: seq<Event>, contractId: string)
    ensures var id := EventJobId(log, contractId);
      && (id != "" ==> exists j: nat | j < |log| :: NewestOwnerAt(log, contractId, id, j))
      && (id == "" ==> forall j: nat :: j < |log| && log[j].contractId == contractId ==> log[j].jobId == "")
  {
    if log != [] {
      var n, id := |log| - 1, EventJobId(log, contractId);
      EventJobIdExactly(log[..n], contractId);
      if log[n].contractId == contractId && log[n].jobId != "" {
        assert NewestOwnerAt(log, contractId, id, n);
      } else if id != "" {
        var j: nat :| j < n && NewestOwnerAt(log[..n], contractId, id, j);
        assert forall m: nat :: m < n ==> log[..n][m] == log[m];
        assert NewestOwnerAt(log, contractId, id, j);
      } else {
        assert forall j: nat :: j < n ==> log[..n][j] == log[j];
      }
    }
  }

  /** The job an outcome is recorded under, whoever owns the contract. */
  lemma {:induction false} OwningJobExactly(log: seq<Event>, contractId: string, rowJobId: string, owner: string)
    requires owner != ""
    ensures OwningJob(log, contractId, rowJobId) == owner <==> OwnedBy(log, contractId, rowJobId, owner)
  {
    hide EventJobId;
    EventJobIdExactly(log, contractId);
    if rowJobId == "" && OwnedBy(log, contractId, rowJobId, owner) {
      var id := EventJobId(log, contractId);
      var j: nat :| j < |log| && NewestOwnerAt(log, contractId, owner, j);
      assert id != "";
      var k: nat :| k < |log| && NewestOwnerAt(log, contractId, id, k);
      assert j == k;
    }
  }

  /** e records how job ended: its kind and text are those of its state, quoting the reason of a failure. */
  predicate Tells(e: Event, job: CoordinatorJob, owner: string, at: int) {
    var reason := if TrimSpace(job.reason) == "" then "no reason given by the coordinator" else TrimSpace(job.reason);
    var run := " (coordinator job " + job.jobId + ")";
    && e.contractId == job.contractId && e.jobId == owner && e.at == at
    && match job.state
       case Succeeded => e.kind == RunSucceeded && e.detail == "TEE run succeeded" + run
       case Failed => e.kind == RunExecutionFailed && e.detail == "TEE run failed: " + reason + run
       case Cancelled => e.kind == RunExecutionFailed && e.detail == "TEE run cancelled: " + reason + run
       case Running => false
  }

  lemma MarkerText(id: string)
    ensures " " + Marker(id) == " (coordinator job " + id + ")"
  {
  }

  lemma OutcomeTells(job: CoordinatorJob, owner: string, at: int)
    requires job.Terminal()
    ensures Tells(OutcomeEvent(job, owner, at), job, owner, at)
  {
    hide TrimSpace, Marker;
    var run := " (coordinator job " + job.jobId + ")";
    assert " " + Marker(job.jobId) == run by {
      MarkerText(job.jobId);
    }
    assert OutcomeText(job) == Opening(job.state) + Quoted(job) + run;
  }

  /** An outcome event of the contract names the run in its text. */
  ghost predicate Told(log: seq<Event>, contractId: string, coordId: string) {
    exists e <- log :: e.contractId == contractId && (e.kind == RunSucceeded || e.kind == RunExecutionFailed)
      && Contains(e.detail, "(coordinator job " + coordId + ")")
  }

  /** The job has ended, is identified, was not told before, and somebody is known to own its contract. */
  ghost predicate ToTell(log: seq<Event>, job: CoordinatorJob, rowJobId: string) {
    && job.state != Running && job.contractId != "" && job.jobId != ""
    && !Told(log, job.contractId, job.jobId)
    && exists owner :: owner != "" && OwnedBy(log, job.contractId, rowJobId, owner)
  }

  lemma ToldExactly(log: seq<Event>, contractId: string, coordId: string)
    ensures HasOutcome(log, contractId, coordId) <==> Told(log, contractId, coordId)
  {
    assert Marker(coordId) == "(coordinator job " + coordId + ")";
  }

  /**
   * Main result: settling appends nothing, or one event that tells how the job ended, under its
   * owner; and it appends one exactly when the job is to tell.
   */
  lemma {:induction false} SettleExactly(log: seq<Event>, job: CoordinatorJob, rowJobId: string, at: int)
    ensures var log' := Settle(log, job, rowJobId, at);
      && (!ToTell(log, job, rowJobId) ==> log' == log)
      && (ToTell(log, job, rowJobId) ==>
            && |log'| == |log| + 1 && log <= log'
            && OwnedBy(log, job.contractId, rowJobId, log'[|log|].jobId)
            && Tells(log'[|log|], job, log'[|log|].jobId, at))
  {
    hide HasOutcome, Told, OwningJob, OwnedBy, OutcomeEvent, Tells;
    ToldExactly(log, job.contractId, job.jobId);
    var owner := OwningJob(log, job.contractId, rowJobId);
    forall x | x != "" ensures owner == x <==> OwnedBy(log, job.contractId, rowJobId, x) {
      OwningJobExactly(log, job.contractId, rowJobId, x);
    }
    if owner != "" {
      assert OwnedBy(log, job.contractId, rowJobId, owner);
    }
    if job.state != Running {
      OutcomeTells(job, owner, at);
      OutcomeKeepsOwner(job, owner, at);
    }
  }

  lemma OutcomeKeepsOwner(job: CoordinatorJob, owner: string, at: int)
    ensures OutcomeEvent(job, owner, at).jobId == owner
  {
  }
}
