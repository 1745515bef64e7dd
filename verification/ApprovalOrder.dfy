/**
 * Approval calls made once each: exactly when their order alone makes no difference. ApprovalRuns
 * has the condition for runs that may also repeat calls.
 */
module ApprovalOrder {
  import opened JobApproval
  import opened ApprovalRuns

  /** xs makes each of calls exactly once. */
  ghost predicate EachOnce(xs: seq<TimedCall>, calls: set<Call>) {
    && CallSet(xs) == calls
    && forall i, k :: 0 <= i < k < |xs| ==> xs[i].0 != xs[k].0
  }

  /** Two runs that make each call once, in whatever order, agree on key. */
  ghost predicate OrderIndependent(env: JobEnv, s: JobState, calls: set<Call>, key: AuditKey) {
    forall xs: seq<TimedCall>, ys: seq<TimedCall> :: EachOnce(xs, calls) && EachOnce(ys, calls) ==>
      Last(ApproveAll(env, s, xs).log, key) == Last(ApproveAll(env, s, ys).log, key)
  }

  /** Some other call of the set may come first and be recorded. */
  ghost predicate MayFollow(env: JobEnv, s: JobState, calls: set<Call>, x: Call, key: AuditKey) {
    exists f <- calls :: f != x && Opens(env, s, f, key)
  }

  /**
   * As OrderFree, but a caller who alone settles key must not be held back only when another
   * recorded call of the kind may come before or after theirs.
   */
  ghost predicate OnceFree(env: JobEnv, s: JobState, calls: set<Call>, key: AuditKey) {
    && (forall x <- calls, y <- calls :: Settles(env, s, x, key) && Settles(env, s, y, key) ==>
          Settled(env, s, x, key) == Settled(env, s, y, key))
    && (forall x <- calls ::
          (Settles(env, s, x, key) && (forall y <- calls :: Settles(env, s, y, key) ==> y == x) &&
           MayFollow(env, s, calls, x, key)) ==>
          !HeldBack(env, s, x, key))
    && ((forall x <- calls :: !Settles(env, s, x, key)) ==>
          forall f <- calls, g <- calls :: Opens(env, s, f, key) && Opens(env, s, g, key) ==>
            Opened(env, s, f, key) == Opened(env, s, g, key))
  }

  /** How the outcome depends on the calls when none is repeated. */
  ghost predicate OnceShaped(env: JobEnv, s: JobState, calls: set<Call>, o: Progress, key: AuditKey) {
    match o.first
    case None => o.status == Last(s.log, key) && forall f <- calls :: !Opens(env, s, f, key)
    case Some(f) =>
      && f in calls && Opens(env, s, f, key)
      && ((exists x <- calls :: x != f && Settles(env, s, x, key) && o.status == Settled(env, s, x, key)) ||
          (o.status == Opened(env, s, f, key) && forall x <- calls :: Settles(env, s, x, key) ==> x == f))
  }

  lemma OnceInit(xs: seq<TimedCall>)
    requires xs != [] && EachOnce(xs, CallSet(xs))
    ensures var init, x := xs[..|xs| - 1], xs[|xs| - 1];
      && EachOnce(init, CallSet(init)) && CallSet(xs) == CallSet(init) + {x.0} && x.0 !in CallSet(init)
  {
    var init, x := xs[..|xs| - 1], xs[|xs| - 1];
    assert xs == init + [x];
    CallSetGrows(init, x);
  }

  lemma {:induction false} OutcomeOnceShaped(env: JobEnv, s: JobState, xs: seq<TimedCall>, key: AuditKey)
    requires EachOnce(xs, CallSet(xs))
    ensures OnceShaped(env, s, CallSet(xs), Outcome(env, s, xs, key), key)
  {
    hide Opens, Settles, Opened, Settled;
    if xs != [] {
      var init, x := xs[..|xs| - 1], xs[|xs| - 1];
      OnceInit(xs);
      OutcomeOnceShaped(env, s, init, key);
      hide EachOnce;
      if Settles(env, s, x.0, key) {
        OpeningSettles(env, s, x.0, key);
      }
      forall f <- CallSet(init) | Settles(env, s, f, key) ensures Opens(env, s, f, key) {
        OpeningSettles(env, s, f, key);
      }
    }
  }

  lemma OnceFreeAgrees(env: JobEnv, s: JobState, calls: set<Call>, o: Progress, p: Progress, key: AuditKey)
    requires OnceFree(env, s, calls, key) && OnceShaped(env, s, calls, o, key) && OnceShaped(env, s, calls, p, key)
    ensures o.status == p.status
  {
    hide Opens, Settles, Opened, Settled, HeldBack;
    if o.first.Some? && p.first.Some? {
      forall f <- calls | Settles(env, s, f, key)
        ensures Opens(env, s, f, key)
        ensures Opened(env, s, f, key) == Settled(env, s, f, key) <==> !HeldBack(env, s, f, key)
      {
        OpeningSettles(env, s, f, key);
      }
    }
  }

  lemma {:induction false} OnceOrder(calls: set<Call>) returns (xs: seq<TimedCall>)
    ensures EachOnce(xs, calls)
  {
    if calls == {} {
      xs := [];
    } else {
      var x :| x in calls;
      var rest := OnceOrder(calls - {x});
      xs := rest + [(x, 0)];
      OnceGrows(rest, (x, 0));
      assert calls == calls - {x} + {x};
    }
  }

  lemma OnceGrows(rest: seq<TimedCall>, x: TimedCall)
    requires EachOnce(rest, CallSet(rest)) && x.0 !in CallSet(rest)
    ensures EachOnce(rest + [x], CallSet(rest) + {x.0})
  {
    CallSetGrows(rest, x);
    forall i | 0 <= i < |rest| ensures rest[i].0 != x.0 {
      assert rest[i].0 in CallSet(rest);
    }
  }

  lemma OnceLeads(x: TimedCall, rest: seq<TimedCall>)
    requires EachOnce(rest, CallSet(rest)) && x.0 !in CallSet(rest)
    ensures EachOnce([x] + rest, {x.0} + CallSet(rest))
  {
    forall i | 0 <= i < |rest| ensures rest[i].0 != x.0 {
      assert rest[i].0 in CallSet(rest);
    }
    var xs := [x] + rest;
    forall c ensures c in CallSet(xs) <==> c in {x.0} + CallSet(rest) {
      if c in CallSet(rest) {
        var i :| 0 <= i < |rest| && rest[i].0 == c;
        assert xs[i + 1].0 == c;
      }
      assert xs[0].0 == x.0;
    }
  }

  /** x first, the rest after it, where the rest settles nothing. */
  lemma XThenRest(env: JobEnv, s: JobState, calls: set<Call>, x: Call, key: AuditKey) returns (xs: seq<TimedCall>)
    requires x in calls && Opens(env, s, x, key) && forall y <- calls :: Settles(env, s, y, key) ==> y == x
    ensures EachOnce(xs, calls) && Last(ApproveAll(env, s, xs).log, key) == Opened(env, s, x, key)
  {
    hide Opens, Settles, Opened, ApproveAll;
    var rest := OnceOrder(calls - {x});
    xs := [(x, 0)] + rest;
    OnceLeads((x, 0), rest);
    assert {x} + (calls - {x}) == calls;
    StartsAndLeaves(env, s, (x, 0), rest, key);
  }

  /** The rest first, x after it, where some call of the rest is recorded. */
  lemma RestThenX(env: JobEnv, s: JobState, calls: set<Call>, x: Call, key: AuditKey) returns (xs: seq<TimedCall>)
    requires x in calls && Settles(env, s, x, key) && MayFollow(env, s, calls, x, key)
    ensures EachOnce(xs, calls) && Last(ApproveAll(env, s, xs).log, key) == Settled(env, s, x, key)
  {
    hide Opens, Settles, Settled, Opened, ApproveAll;
    var rest := OnceOrder(calls - {x});
    xs := rest + [(x, 0)];
    OnceGrows(rest, (x, 0));
    assert calls - {x} + {x} == calls;
    assert xs[..|rest|] == rest;
    OutcomeShaped(env, s, rest, key);
    RunFollows(env, s, xs, key);
  }

  lemma IndependentIsOnceFree(env: JobEnv, s: JobState, calls: set<Call>, key: AuditKey)
    requires OrderIndependent(env, s, calls, key)
    ensures OnceFree(env, s, calls, key)
  {
    hide Opens, Settles, Opened, Settled, HeldBack, ApproveAll, EachOnce;
    forall x <- calls, y <- calls | Settles(env, s, x, key) && Settles(env, s, y, key)
      ensures Settled(env, s, x, key) == Settled(env, s, y, key)
    {
      if x != y {
        OpeningSettles(env, s, x, key);
        OpeningSettles(env, s, y, key);
        var xs := RestThenX(env, s, calls, x, key);
        var ys := RestThenX(env, s, calls, y, key);
      }
    }
    forall x <- calls | Settles(env, s, x, key) && (forall y <- calls :: Settles(env, s, y, key) ==> y == x)
      && MayFollow(env, s, calls, x, key)
      ensures !HeldBack(env, s, x, key)
    {
      OpeningSettles(env, s, x, key);
      var xs := XThenRest(env, s, calls, x, key);
      var ys := RestThenX(env, s, calls, x, key);
    }
    if forall x <- calls :: !Settles(env, s, x, key) {
      forall f <- calls, g <- calls | Opens(env, s, f, key) && Opens(env, s, g, key)
        ensures Opened(env, s, f, key) == Opened(env, s, g, key)
      {
        var xs := XThenRest(env, s, calls, f, key);
        var ys := XThenRest(env, s, calls, g, key);
      }
    }
  }

  /** Main result: made once each, calls are order-independent on a key if and only if they are free there. */
  lemma OrderIndependentExactly(env: JobEnv, s: JobState, calls: set<Call>, key: AuditKey)
    ensures OrderIndependent(env, s, calls, key) <==> OnceFree(env, s, calls, key)
  {
    hide Opens, Settles, Opened, Settled, HeldBack, OnceFree, ApproveAll;
    if OrderIndependent(env, s, calls, key) {
      IndependentIsOnceFree(env, s, calls, key);
    }
    if OnceFree(env, s, calls, key) {
      forall xs: seq<TimedCall>, ys: seq<TimedCall> | EachOnce(xs, calls) && EachOnce(ys, calls)
        ensures Last(ApproveAll(env, s, xs).log, key) == Last(ApproveAll(env, s, ys).log, key)
      {
        RunFollows(env, s, xs, key);
        RunFollows(env, s, ys, key);
        OutcomeOnceShaped(env, s, xs, key);
        OutcomeOnceShaped(env, s, ys, key);
        OnceFreeAgrees(env, s, calls, Outcome(env, s, xs, key), Outcome(env, s, ys, key), key);
      }
    }
  }
}
