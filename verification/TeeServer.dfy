/** settleTEERun and its watcher as they run: check-then-append on the events table, and the polling loop. */
module TeeServer {
  import opened Wrappers
  import opened Text
  import opened TeeOutcome

  /** One turn of the watcher: the clock, and the coordinator's answer if it gave one. */
  datatype Poll = Poll(now: int, answer: Option<CoordinatorJob>)

  predicate Final(poll: Poll) {
    poll.answer.Some? && poll.answer.value.Terminal()
  }

  const MAX_ID := 128

  class Recorder {
    var log: seq<Event>

    constructor (events: seq<Event>)
      ensures log == events
    {
      log := events;
    }

    /** HasTEERunOutcome: the existence query as a scan. */
    method HasTEERunOutcome(contractId: string, coordId: string) returns (found: bool)
      ensures found == HasOutcome(log, contractId, coordId)
    {
      found := false;
      for i := 0 to |log|
        invariant found == HasOutcome(log[..i], contractId, coordId)
      {
        assert log[..i + 1] == log[..i] + [log[i]];
        if Names(log[i], contractId, coordId) {
          found := true;
        }
      }
      assert log[..|log|] == log;
    }

    /** ContractEventJobID: the newest first. */
    method ContractEventJobId(contractId: string) returns (jobId: string)
      ensures jobId == EventJobId(log, contractId)
    {
      var i := |log|;
      assert log[..i] == log;
      while i > 0
        invariant 0 <= i <= |log|
        invariant EventJobId(log, contractId) == EventJobId(log[..i], contractId)
      {
        i := i - 1;
        assert log[..i + 1][..i] == log[..i];
        if log[i].contractId == contractId && log[i].jobId != "" {
          return log[i].jobId;
        }
      }
      jobId := "";
    }

    /** The event kind and text of a final job. */
    static method Describe(job: CoordinatorJob) returns (kind: EventKind, detail: string)
      requires job.Terminal()
      ensures kind == if job.state == Succeeded then RunSucceeded else RunExecutionFailed
      ensures detail == OutcomeText(job)
    {
      hide TrimSpace, Marker;
      var suffix := " " + Marker(job.jobId);
      var reason := TrimSpace(job.reason);
      if reason == "" {
        reason := NO_REASON;
      }
      kind, detail := RunSucceeded, "TEE run succeeded" + suffix;
      if job.state == Failed {
        kind, detail := RunExecutionFailed, "TEE run failed: " + reason + suffix;
      } else if job.state == Cancelled {
        kind, detail := RunExecutionFailed, "TEE run cancelled: " + reason + suffix;
      }
      assert detail == Opening(job.state) + Quoted(job) + suffix;
    }

    method SettleTeeRun(job: CoordinatorJob, rowJobId: string, at: int) returns (final: bool)
      modifies this
      ensures final == job.Terminal()
      ensures log == Settle(old(log), job, rowJobId, at)
      ensures !ToTell(old(log), job, rowJobId) ==> log == old(log)
      ensures ToTell(old(log), job, rowJobId) ==>
        && |log| == |old(log)| + 1 && old(log) <= log
        && OwnedBy(old(log), job.contractId, rowJobId, log[|old(log)|].jobId)
        && Tells(log[|old(log)|], job, log[|old(log)|].jobId, at)
    {
      hide HasOutcome, EventJobId, OutcomeText, ToTell, OwnedBy, Tells;
      SettleExactly(log, job, rowJobId, at);
      if !job.Terminal() {
        return false;
      }
      if job.contractId == "" || job.jobId == "" {
        return true;
      }
      var done := HasTEERunOutcome(job.contractId, job.jobId);
      if done {
        return true;
      }
      var jobId := rowJobId;
      if jobId == "" {
        jobId := ContractEventJobId(job.contractId);
        if jobId == "" {
          return true;
        }
      }
      var kind, detail := Describe(job);
      log := log + [Event(job.contractId, jobId, kind, detail, at)];
      final := true;
    }

    /**
     * Polls until the job is final or the deadline passes. What it leaves in the table is what
     * settling the first final answer before the deadline leaves, and nothing without one.
     */
    method WatchTeeRun(jobId: string, polls: seq<Poll>, deadline: int, rowJobId: string) returns (turns: nat)
      modifies this
      ensures turns <= |polls|
      ensures forall k :: 0 <= k < turns ==> polls[k].now < deadline && !Final(polls[k])
      ensures turns < |polls| && IsCoordId(jobId) && |jobId| <= MAX_ID ==>
        polls[turns].now >= deadline || Final(polls[turns])
      ensures log ==
        if turns < |polls| && IsCoordId(jobId) && |jobId| <= MAX_ID && polls[turns].now < deadline
        then Settle(old(log), polls[turns].answer.value, rowJobId, polls[turns].now)
        else old(log)
    {
      turns := 0;
      if !IsCoordId(jobId) || |jobId| > MAX_ID {
        return;
      }
      while turns < |polls| && polls[turns].now < deadline
        invariant turns <= |polls|
        invariant forall k :: 0 <= k < turns ==> polls[k].now < deadline && !Final(polls[k])
        invariant log == old(log)
      {
        if polls[turns].answer.Some? {
          var final := SettleTeeRun(polls[turns].answer.value, rowJobId, polls[turns].now);
          if final {
            return;
          }
        }
        turns := turns + 1;
      }
    }
  }
}
