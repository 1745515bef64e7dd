/**
 * Any number of watchers and pollers settling TEE runs at once, statement by statement under
 * one mutex, with restarts that drop the mutex and every goroutine but not the table.
 */
module TeeRuns {
  import opened Wrappers
  import opened Text
  import opened TeeOutcome

  /** What really happened; the table only holds the text of it. */
  datatype Act =
    | StartedAct(contractId: string, jobId: string, coordId: string, at: int)
    | SettledAct(job: CoordinatorJob, owner: string, at: int)
    | OtherAct(contractId: string, jobId: string, name: string, detail: string, at: int)

  function EventOf(a: Act): Event {
    match a
    case StartedAct(contractId, jobId, coordId, at) => Event(contractId, jobId, RunStarted, StartText(coordId), at)
    case SettledAct(job, owner, at) => OutcomeEvent(job, owner, at)
    case OtherAct(contractId, jobId, name, detail, at) => Event(contractId, jobId, OtherKind(name), detail, at)
  }

  function Log(acts: seq<Act>): (log: seq<Event>)
    ensures |log| == |acts|
  {
    seq(|acts|, i requires 0 <= i < |acts| => EventOf(acts[i]))
  }

  /** Where a goroutine stands inside settleTEERun. */
  datatype Stage =
    | Waiting(job: CoordinatorJob)
    | Holding(job: CoordinatorJob)
    | Checked(job: CoordinatorJob)
    | Resolved(job: CoordinatorJob, owner: string)
    | Releasing(job: CoordinatorJob, named: bool)

  datatype State = State(acts: seq<Act>, lock: Option<nat>, procs: map<nat, Stage>)

  const EMPTY := State([], None, map[])

  datatype Step =
    | Begin(p: nat, answer: CoordinatorJob)
    | Acquire(p: nat)
    | Check(p: nat)
    | Resolve(p: nat, rowJobId: string)
    | Record(p: nat, at: int)
    | Release(p: nat)
    | Append(act: Act)
    | Restart

  function Apply(st: State, step: Step): State {
    match step
    case Begin(p, job) =>
      if p in st.procs || !Identified(job) then st else st.(procs := st.procs[p := Waiting(job)])
    case Acquire(p) =>
      if p in st.procs && st.procs[p].Waiting? && st.lock.None?
      then st.(lock := Some(p), procs := st.procs[p := Holding(st.procs[p].job)])
      else st
    case Check(p) =>
      if p in st.procs && st.procs[p].Holding?
      then
        var job := st.procs[p].job;
        st.(procs := st.procs[p :=
          if HasOutcome(Log(st.acts), job.contractId, job.jobId) then Releasing(job, true) else Checked(job)])
      else st
    case Resolve(p, rowJobId) =>
      if p in st.procs && st.procs[p].Checked?
      then
        var job := st.procs[p].job;
        var owner := OwningJob(Log(st.acts), job.contractId, rowJobId);
        st.(procs := st.procs[p := if owner == "" then Releasing(job, false) else Resolved(job, owner)])
      else st
    case Record(p, at) =>
      if p in st.procs && st.procs[p].Resolved?
      then
        var job, owner := st.procs[p].job, st.procs[p].owner;
        st.(acts := st.acts + [SettledAct(job, owner, at)], procs := st.procs[p := Releasing(job, true)])
      else st
    case Release(p) =>
      if p in st.procs && st.procs[p].Releasing? then st.(lock := None, procs := st.procs - {p}) else st
    case Append(act) =>
      if act.SettledAct? then st else st.(acts := st.acts + [act])
    case Restart =>
      st.(lock := None, procs := map[])
  }

  function Run(st: State, steps: seq<Step>): State {
    if steps == [] then st else Apply(Run(st, steps[..|steps| - 1]), steps[|steps| - 1])
  }

  // ---- the invariant

  ghost predicate Mutex(st: State) {
    forall p <- st.procs :: st.procs[p].Waiting? || st.lock == Some(p)
  }

  ghost predicate StageHolds(st: State, p: nat)
    requires p in st.procs
  {
    var job := st.procs[p].job;
    && Identified(job)
    && (match st.procs[p]
        case Checked(_) => !HasOutcome(Log(st.acts), job.contractId, job.jobId)
        case Resolved(_, owner) => owner != "" && !HasOutcome(Log(st.acts), job.contractId, job.jobId)
        case Releasing(_, named) => named ==> HasOutcome(Log(st.acts), job.contractId, job.jobId)
        case _ => true)
  }

  predicate SameRun(a: Act, b: Act) {
    a.SettledAct? && b.SettledAct? && a.job.contractId == b.job.contractId && a.job.jobId == b.job.jobId
  }

  ghost predicate Once(acts: seq<Act>) {
    forall i, k :: 0 <= i < k < |acts| ==> !SameRun(acts[i], acts[k])
  }

  ghost predicate Inv(st: State) {
    && Mutex(st)
    && Once(st.acts)
    && (forall p <- st.procs :: StageHolds(st, p))
  }

  lemma LogGrows(acts: seq<Act>, a: Act, contractId: string, coordId: string)
    ensures Log(acts + [a]) == Log(acts) + [EventOf(a)]
    ensures HasOutcome(Log(acts + [a]), contractId, coordId)
      <==> HasOutcome(Log(acts), contractId, coordId) || Names(EventOf(a), contractId, coordId)
  {
    assert Log(acts + [a]) == Log(acts) + [EventOf(a)];
  }

  lemma SettledIsNamed(acts: seq<Act>, i: nat)
    requires i < |acts| && acts[i].SettledAct?
    ensures HasOutcome(Log(acts), acts[i].job.contractId, acts[i].job.jobId)
  {
    OwnMarker(acts[i].job);
    var e := Log(acts)[i];
    assert e in Log(acts) && Names(e, acts[i].job.contractId, acts[i].job.jobId);
  }

  /** A stage fact about p survives an act that is not an outcome, and any outcome recorded while p only waits. */
  lemma StageSurvives(st: State, a: Act, p: nat)
    requires p in st.procs && StageHolds(st, p)
    requires a.SettledAct? ==> st.procs[p].Waiting?
    ensures StageHolds(st.(acts := st.acts + [a]), p)
  {
    LogGrows(st.acts, a, st.procs[p].job.contractId, st.procs[p].job.jobId);
  }

  lemma RecordKeepsInv(st: State, p: nat, at: int)
    requires Inv(st) && p in st.procs && st.procs[p].Resolved?
    ensures Inv(Apply(st, Record(p, at)))
  {
    var job := st.procs[p].job;
    var a := SettledAct(job, st.procs[p].owner, at);
    var t := Apply(st, Record(p, at));
    assert StageHolds(st, p);
    forall i | 0 <= i < |st.acts| ensures !SameRun(st.acts[i], a) {
      if SameRun(st.acts[i], a) {
        SettledIsNamed(st.acts, i);
        assert false;
      }
    }
    SettledIsNamed(t.acts, |st.acts|);
    forall q | q in t.procs ensures StageHolds(t, q) {
      if q != p {
        StageSurvives(st, a, q);
      }
    }
  }

  lemma StepKeepsInv(st: State, step: Step)
    requires Inv(st)
    ensures Inv(Apply(st, step))
  {
    hide HasOutcome;
    var t := Apply(st, step);
    match step
    case Record(p, at) =>
      if p in st.procs && st.procs[p].Resolved? {
        RecordKeepsInv(st, p, at);
      }
    case Append(a) =>
      if !a.SettledAct? {
        forall q | q in t.procs ensures StageHolds(t, q) {
          StageSurvives(st, a, q);
        }
      }
    case Restart =>
    case _ =>
      assert t.acts == st.acts;
      forall q | q in t.procs ensures StageHolds(t, q) {
        if q in st.procs {
          assert StageHolds(st, q);
        }
      }
  }

  lemma {:induction false} RunsKeepInv(steps: seq<Step>)
    ensures Inv(Run(EMPTY, steps))
  {
    if steps != [] {
      RunsKeepInv(steps[..|steps| - 1]);
      StepKeepsInv(Run(EMPTY, steps[..|steps| - 1]), steps[|steps| - 1]);
    }
  }

  /**
   * Main result: however the statements of any number of settling goroutines interleave, and
   * wherever restarts fall, no coordinator job's outcome is recorded twice for one contract.
   */
  lemma {:induction false} OutcomeRecordedOnce(steps: seq<Step>, i: nat, k: nat)
    requires i < k < |Run(EMPTY, steps).acts|
    ensures !SameRun(Run(EMPTY, steps).acts[i], Run(EMPTY, steps).acts[k])
  {
    RunsKeepInv(steps);
  }

  /** Each recording is the whole handler in one atomic step: interleaving adds no behaviour. */
  lemma RecordIsSettle(steps: seq<Step>, p: nat, at: int)
    requires p in Run(EMPTY, steps).procs && Run(EMPTY, steps).procs[p].Resolved?
    ensures var st := Run(EMPTY, steps);
      Log(Apply(st, Record(p, at)).acts) == Settle(Log(st.acts), st.procs[p].job, st.procs[p].owner, at)
  {
    RunsKeepInv(steps);
    var st := Run(EMPTY, steps);
    assert StageHolds(st, p);
    LogGrows(st.acts, SettledAct(st.procs[p].job, st.procs[p].owner, at), "", "");
  }

  /** The statements of settleTEERun, by one goroutine from start to end. */
  function Handler(p: nat, job: CoordinatorJob, rowJobId: string, at: int): seq<Step> {
    [Begin(p, job), Acquire(p), Check(p), Resolve(p, rowJobId), Record(p, at), Release(p)]
  }

  /** From any state with the mutex free, a goroutine left alone leaves what settling in one step does. */
  lemma {:induction false} UndisturbedSettles(st: State, p: nat, job: CoordinatorJob, rowJobId: string, at: int)
    requires st.lock.None? && p !in st.procs
    ensures var t := Run(st, Handler(p, job, rowJobId, at));
      Log(t.acts) == Settle(Log(st.acts), job, rowJobId, at) && t.lock.None? && t.procs == st.procs
  {
    hide HasOutcome, OwningJob, Run, OutcomeEvent;
    var h := Handler(p, job, rowJobId, at);
    RunOfSix(st, h);
    var s1 := Apply(Apply(st, h[0]), h[1]);
    var s2 := Apply(Apply(s1, h[2]), h[3]);
    var t := Apply(Apply(s2, h[4]), h[5]);
    if Identified(job) {
      var owner := OwningJob(Log(st.acts), job.contractId, rowJobId);
      assert s1.procs == st.procs[p := Holding(job)] && s1.acts == st.acts;
      if HasOutcome(Log(st.acts), job.contractId, job.jobId) {
        assert t == st.(procs := t.procs);
      } else if owner == "" {
        assert t == st.(procs := t.procs);
      } else {
        assert t.acts == st.acts + [SettledAct(job, owner, at)];
        assert Log(t.acts) == Log(st.acts) + [OutcomeEvent(job, owner, at)];
      }
    } else {
      assert t == st;
    }
  }

  lemma RunOfSix(st: State, h: seq<Step>)
    requires |h| == 6
    ensures Run(st, h) == Apply(Apply(Apply(Apply(Apply(Apply(st, h[0]), h[1]), h[2]), h[3]), h[4]), h[5])
  {
    hide Apply;
    assert h[..5][..4] == h[..4] && h[..4][..3] == h[..3] && h[..3][..2] == h[..2] && h[..2][..1] == h[..1];
    assert h[..1][..0] == [];
    assert Run(st, h[..1]) == Apply(st, h[0]);
    assert Run(st, h[..2]) == Apply(Run(st, h[..1]), h[1]);
    assert Run(st, h[..3]) == Apply(Run(st, h[..2]), h[2]);
    assert Run(st, h[..4]) == Apply(Run(st, h[..3]), h[3]);
    assert Run(st, h[..5]) == Apply(Run(st, h[..4]), h[4]);
  }

  // ---- what a recorded outcome says

  /**
   * At step k the goroutine settling job found its owner: its contract row's job, else that of the
   * contract's newest event with one.
   */
  ghost predicate ResolvedAt(steps: seq<Step>, job: CoordinatorJob, owner: string, k: nat) {
    && k < |steps| && steps[k].Resolve? && owner != ""
    && (var st := Run(EMPTY, steps[..k]);
        && steps[k].p in st.procs && st.procs[steps[k].p] == Checked(job)
        && OwnedBy(Log(st.acts), job.contractId, steps[k].rowJobId, owner))
  }

  ghost predicate OwnerFound(steps: seq<Step>, job: CoordinatorJob, owner: string) {
    exists k: nat | k < |steps| :: ResolvedAt(steps, job, owner, k)
  }

  /** Every owner a goroutine goes by, and every one recorded, was found by an earlier step. */
  ghost predicate OwnersFound(steps: seq<Step>) {
    var st := Run(EMPTY, steps);
    && (forall p <- st.procs :: st.procs[p].Resolved? ==> OwnerFound(steps, st.procs[p].job, st.procs[p].owner))
    && (forall a <- st.acts :: a.SettledAct? ==> a.job.Terminal() && OwnerFound(steps, a.job, a.owner))
  }

  lemma OwnerStaysFound(steps: seq<Step>, step: Step, job: CoordinatorJob, owner: string)
    requires OwnerFound(steps, job, owner)
    ensures OwnerFound(steps + [step], job, owner)
  {
    hide Run, OwnedBy;
    var k: nat :| k < |steps| && ResolvedAt(steps, job, owner, k);
    assert (steps + [step])[..k] == steps[..k];
    assert ResolvedAt(steps + [step], job, owner, k);
  }

  lemma ResolveFinds(steps: seq<Step>, p: nat, rowJobId: string)
    requires var st := Run(EMPTY, steps); p in st.procs && st.procs[p].Checked?
    ensures var t := Apply(Run(EMPTY, steps), Resolve(p, rowJobId));
      t.procs[p].Resolved? ==> OwnerFound(steps + [Resolve(p, rowJobId)], t.procs[p].job, t.procs[p].owner)
  {
    hide Run, OwningJob, OwnedBy;
    var st, all := Run(EMPTY, steps), steps + [Resolve(p, rowJobId)];
    var job := st.procs[p].job;
    var owner := OwningJob(Log(st.acts), job.contractId, rowJobId);
    if owner != "" {
      OwningJobExactly(Log(st.acts), job.contractId, rowJobId, owner);
      assert all[..|steps|] == steps;
      assert ResolvedAt(all, job, owner, |steps|);
    }
  }

  /** A step that is no Resolve gives no goroutine an owner, and records at most one it goes by. */
  lemma OwnersComeFrom(st: State, step: Step)
    ensures var t := Apply(st, step);
      && (forall q <- t.procs :: t.procs[q].Resolved? && !(step.Resolve? && step.p == q) ==>
            q in st.procs && t.procs[q] == st.procs[q])
      && (forall a <- t.acts :: a.SettledAct? && a !in st.acts ==>
            step.Record? && step.p in st.procs && st.procs[step.p].Resolved?
            && a.job == st.procs[step.p].job && a.owner == st.procs[step.p].owner)
      && (forall q <- t.procs :: t.procs[q].Resolved? && step.Resolve? && step.p == q ==>
            q in st.procs && (t.procs[q] == st.procs[q] || st.procs[q].Checked?))
  {
    hide HasOutcome, OwningJob;
  }

  lemma StepFindsOwners(steps: seq<Step>, step: Step)
    requires OwnersFound(steps)
    ensures OwnersFound(steps + [step])
  {
    hide OwnerFound, Apply, Run, HasOutcome;
    var st, t := Run(EMPTY, steps), Run(EMPTY, steps + [step]);
    RunsKeepInv(steps);
    RunGrows(steps, step);
    OwnersComeFrom(st, step);
    forall p | p in t.procs && t.procs[p].Resolved?
      ensures OwnerFound(steps + [step], t.procs[p].job, t.procs[p].owner)
    {
      if p in st.procs && t.procs[p] == st.procs[p] {
        OwnerStaysFound(steps, step, t.procs[p].job, t.procs[p].owner);
      } else {
        ResolveFinds(steps, p, step.rowJobId);
      }
    }
    forall a | a in t.acts && a.SettledAct?
      ensures a.job.Terminal() && OwnerFound(steps + [step], a.job, a.owner)
    {
      assert a !in st.acts ==> StageHolds(st, step.p);
      OwnerStaysFound(steps, step, a.job, a.owner);
    }
  }

  lemma RunGrows(steps: seq<Step>, step: Step)
    ensures Run(EMPTY, steps + [step]) == Apply(Run(EMPTY, steps), step)
  {
    hide Apply;
    assert (steps + [step])[..|steps|] == steps;
  }

  lemma {:induction false} RunsFindOwners(steps: seq<Step>)
    ensures OwnersFound(steps)
  {
    hide Apply, OwnersFound;
    if steps == [] {
      NothingRecorded();
    } else {
      RunsFindOwners(steps[..|steps| - 1]);
      StepFindsOwners(steps[..|steps| - 1], steps[|steps| - 1]);
      assert steps[..|steps| - 1] + [steps[|steps| - 1]] == steps;
    }
  }

  lemma NothingRecorded()
    ensures OwnersFound([])
  {
  }

  /**
   * Main result: over every interleaving, an outcome recorded for a job is a success if and only if
   * the coordinator said it succeeded, tells in its text how it ended, and is under the contract's
   * owner as a step of the run found it.
   */
  lemma {:induction false} OutcomeIsTold(steps: seq<Step>, i: nat)
    requires i < |Run(EMPTY, steps).acts| && Run(EMPTY, steps).acts[i].SettledAct?
    ensures var a, e := Run(EMPTY, steps).acts[i], Log(Run(EMPTY, steps).acts)[i];
      && (e.kind == RunSucceeded <==> a.job.state == Succeeded)
      && (e.kind == RunExecutionFailed <==> a.job.state == Failed || a.job.state == Cancelled)
      && Tells(e, a.job, a.owner, a.at)
      && OwnerFound(steps, a.job, a.owner)
  {
    hide Run, OwnerFound, OutcomeEvent;
    RunsFindOwners(steps);
    var a := Run(EMPTY, steps).acts[i];
    assert a in Run(EMPTY, steps).acts;
    OutcomeTells(a.job, a.owner, a.at);
  }

  /** A goroutine about to release the mutex with the outcome found or recorded leaves a row naming its run. */
  lemma {:induction false} NamedStaysNamed(st: State, steps: seq<Step>, contractId: string, coordId: string)
    requires HasOutcome(Log(st.acts), contractId, coordId)
    ensures HasOutcome(Log(Run(st, steps).acts), contractId, coordId)
  {
    hide Apply, HasOutcome;
    if steps != [] {
      var mid := Run(st, steps[..|steps| - 1]);
      NamedStaysNamed(st, steps[..|steps| - 1], contractId, coordId);
      var t := Run(st, steps);
      AppendsAtMostOne(mid, steps[|steps| - 1]);
      if t.acts != mid.acts {
        LogGrows(mid.acts, t.acts[|mid.acts|], contractId, coordId);
      }
    }
  }

  lemma AppendsAtMostOne(st: State, step: Step)
    ensures var t := Apply(st, step);
      t.acts == st.acts || (|t.acts| == |st.acts| + 1 && t.acts == st.acts + [t.acts[|st.acts|]])
  {
    hide HasOutcome, OwningJob;
  }

  lemma ReleasedMeansRecorded(steps: seq<Step>, p: nat, more: seq<Step>)
    requires p in Run(EMPTY, steps).procs
    requires Run(EMPTY, steps).procs[p].Releasing? && Run(EMPTY, steps).procs[p].named
    ensures var job := Run(EMPTY, steps).procs[p].job;
      HasOutcome(Log(Run(Run(EMPTY, steps), more).acts), job.contractId, job.jobId)
  {
    RunsKeepInv(steps);
    assert StageHolds(Run(EMPTY, steps), p);
    var job := Run(EMPTY, steps).procs[p].job;
    NamedStaysNamed(Run(EMPTY, steps), more, job.contractId, job.jobId);
  }

  // ---- unsettled runs

  /** Coordinator job ids look like "job-9f3c4952e83e". */
  predicate WellNamed(acts: seq<Act>) {
    forall a <- acts ::
      && (a.StartedAct? && a.coordId != "" ==> IsCoordId(a.coordId))
      && (a.SettledAct? ==> IsCoordId(a.job.jobId))
  }

  predicate Started(a: Act, contractId: string, coordId: string, since: int) {
    a.StartedAct? && a.contractId == contractId && a.coordId == coordId && coordId != "" && a.at >= since
  }

  predicate Settles(a: Act, contractId: string, coordId: string) {
    a.SettledAct? && a.job.contractId == contractId && a.job.jobId == coordId
  }

  /** The coordinator's reason for another run's end quotes this run's marker. */
  predicate Quotes(a: Act, contractId: string, coordId: string) {
    a.SettledAct? && a.job.contractId == contractId && Contains(Quoted(a.job), Marker(coordId))
  }

  lemma HasOutcomeExactly(acts: seq<Act>, contractId: string, coordId: string)
    requires WellNamed(acts) && IsCoordId(coordId)
    ensures HasOutcome(Log(acts), contractId, coordId)
      <==> exists a <- acts :: Settles(a, contractId, coordId) || Quotes(a, contractId, coordId)
  {
    if HasOutcome(Log(acts), contractId, coordId) {
      var e :| e in Log(acts) && Names(e, contractId, coordId);
      var i :| 0 <= i < |acts| && Log(acts)[i] == e;
      assert acts[i] in acts;
      OutcomeNames(acts[i].job, coordId);
      assert Settles(acts[i], contractId, coordId) || Quotes(acts[i], contractId, coordId);
    }
    if a :| a in acts && (Settles(a, contractId, coordId) || Quotes(a, contractId, coordId)) {
      var i :| 0 <= i < |acts| && acts[i] == a;
      OutcomeNames(a.job, coordId);
      assert Log(acts)[i] in Log(acts) && Names(Log(acts)[i], contractId, coordId);
    }
  }

  lemma PlainStartHasNoId()
    ensures Extract(StartText("")) == None
  {
    ExtractSkips("TEE run started", "");
    assert "TEE run started" + "" == "TEE run started";
  }

  lemma {:induction false} UnsettledMembers(acts: seq<Act>, all: seq<Event>, since: int, u: Unsettled)
    requires WellNamed(acts)
    ensures u in UnsettledRuns(Log(acts), all, since)
      <==> (exists a <- acts :: Started(a, u.contractId, u.coordId, since)) && !HasOutcome(all, u.contractId, u.coordId)
  {
    hide HasOutcome, Extract;
    if acts == [] {
      assert UnsettledRuns([], all, since) == [];
    } else {
      var k := |acts| - 1;
      UnsettledMembers(acts[..k], all, since, u);
      assert Log(acts)[..k] == Log(acts[..k]);
      assert acts == acts[..k] + [acts[k]];
      if acts[k].StartedAct? {
        if acts[k].coordId == "" {
          PlainStartHasNoId();
        } else {
          StartRoundTrip(acts[k].coordId);
        }
      }
      assert Log(acts)[k] == EventOf(acts[k]);
      var e := Log(acts)[k];
      assert (exists a <- acts :: Started(a, u.contractId, u.coordId, since)) <==>
        ((exists a <- acts[..k] :: Started(a, u.contractId, u.coordId, since)) ||
         Started(acts[k], u.contractId, u.coordId, since));
      assert Started(acts[k], u.contractId, u.coordId, since) <==>
        (e.kind == RunStarted && e.at >= since && e.contractId == u.contractId && Extract(e.detail) == Some(u.coordId));
    }
  }

  /**
   * Main result: the runs to resume are exactly those started in the window whose outcome is not
   * recorded and whose marker no other run's reason quotes.
   */
  lemma UnsettledExactly(acts: seq<Act>, since: int, u: Unsettled)
    requires WellNamed(acts)
    ensures u in UnsettledRuns(Log(acts), Log(acts), since) <==>
      ((exists a <- acts :: Started(a, u.contractId, u.coordId, since)) &&
       !(exists a <- acts :: Settles(a, u.contractId, u.coordId) || Quotes(a, u.contractId, u.coordId)))
  {
    hide HasOutcome, UnsettledRuns;
    UnsettledMembers(acts, Log(acts), since, u);
    if a :| a in acts && Started(a, u.contractId, u.coordId, since) {
      HasOutcomeExactly(acts, u.contractId, u.coordId);
    }
  }

  /** Without such a quote, unsettled is started minus settled. */
  lemma StartedMinusSettled(acts: seq<Act>, since: int, u: Unsettled)
    requires WellNamed(acts) && forall a <- acts :: !Quotes(a, u.contractId, u.coordId)
    ensures u in UnsettledRuns(Log(acts), Log(acts), since) <==>
      ((exists a <- acts :: Started(a, u.contractId, u.coordId, since)) &&
       !(exists a <- acts :: Settles(a, u.contractId, u.coordId)))
  {
    UnsettledExactly(acts, since, u);
  }

  /** A run whose marker another run's reason quotes is hidden: never resumed, and its own end never recorded. */
  lemma QuotedRunIsHidden(acts: seq<Act>, q: Act, job: CoordinatorJob, rowJobId: string, at: int, since: int)
    requires WellNamed(acts) && IsCoordId(job.jobId)
    requires q in acts && Quotes(q, job.contractId, job.jobId)
    ensures Unsettled(job.contractId, job.jobId) !in UnsettledRuns(Log(acts), Log(acts), since)
    ensures Settle(Log(acts), job, rowJobId, at) == Log(acts)
  {
    HasOutcomeExactly(acts, job.contractId, job.jobId);
    UnsettledExactly(acts, since, Unsettled(job.contractId, job.jobId));
  }

  /** Such a reason: job-b's end hides job-a's. */
  lemma QuoteExample()
    ensures var reason := "evicted by " + Marker("job-a");
      Quotes(SettledAct(CoordinatorJob("job-b", "c", Failed, reason), "j", 2), "c", "job-a")
  {
    var opening := "evicted by ";
    var reason := opening + Marker("job-a");
    assert reason[0] == 'e' && reason[|reason| - 1] == ')';
    assert TrimSpace(reason) == reason;
    assert reason[|opening|..|opening| + |Marker("job-a")|] == Marker("job-a");
    assert At(reason, Marker("job-a"), |opening|);
  }
}
