/**
 * What one answer, one posting and one removal leave, row by row and field by field; and, over whole
 * runs, that an ask's response is the last answer given to it.
 */
module NegotiationSteps {
  import opened Wrappers
  import opened Text
  import opened Negotiation
  import opened NegotiationRuns
  import opened NegotiationAnswers

  // ---- independent readings of the table

  /** Row k asks u about session s. */
  predicate AsksAt(ns: seq<Notification>, k: nat, u: string, s: string) {
    && k < |ns| && ns[k].recipient == u && ns[k].payload.submission == s
    && (ns[k].payload.kind == "participation_request" || ns[k].payload.kind == "participation_update")
  }

  /** Row k requests u's participation in session s. */
  predicate RequestsAt(ns: seq<Notification>, k: nat, u: string, s: string) {
    && k < |ns| && ns[k].recipient == u && ns[k].payload.submission == s
    && ns[k].payload.kind == "participation_request"
  }

  predicate WasRequested(ns: seq<Notification>, u: string, s: string) {
    exists k: nat | k < |ns| :: RequestsAt(ns, k, u, s)
  }

  /** Row k is u's newest request for s. */
  predicate NewestRequestAt(ns: seq<Notification>, k: nat, u: string, s: string) {
    RequestsAt(ns, k, u, s) && forall m: nat :: k < m < |ns| ==> !RequestsAt(ns, m, u, s)
  }

  /** u's newest request for s stands accepted. */
  predicate StandsAccepted(ns: seq<Notification>, u: string, s: string) {
    exists k: nat | k < |ns| :: NewestRequestAt(ns, k, u, s) && ns[k].response == Some("accepted")
  }

  /** Some ask of u's for s other than row id stands declined. */
  predicate OtherDeclined(ns: seq<Notification>, id: nat, u: string, s: string) {
    exists k: nat | k < |ns| :: k != id && AsksAt(ns, k, u, s) && ns[k].response == Some("declined")
  }

  predicate RemovedFrom(removals: seq<Removal>, u: string, s: string) {
    exists r <- removals :: r.submission == s && r.username == u
  }

  lemma RemovedExactly(removals: seq<Removal>, u: string, s: string)
    ensures u in RemovedSet(removals, s) <==> RemovedFrom(removals, u, s)
  {
  }

  lemma {:induction false} DeclinesExactly(ns: seq<Notification>, u: string, s: string)
    ensures CountDeclines(ns, u, s) >= 1 <==>
      exists k: nat | k < |ns| :: AsksAt(ns, k, u, s) && ns[k].response == Some("declined")
  {
    if ns != [] {
      var n := |ns| - 1;
      DeclinesExactly(ns[..n], u, s);
      if exists k: nat | k < n :: AsksAt(ns[..n], k, u, s) && ns[..n][k].response == Some("declined") {
        var k: nat :| k < n && AsksAt(ns[..n], k, u, s) && ns[..n][k].response == Some("declined");
        assert AsksAt(ns, k, u, s) && ns[k].response == Some("declined");
      }
      if exists k: nat | k < |ns| :: AsksAt(ns, k, u, s) && ns[k].response == Some("declined") {
        var k: nat :| k < |ns| && AsksAt(ns, k, u, s) && ns[k].response == Some("declined");
        if k < n {
          assert AsksAt(ns[..n], k, u, s);
        }
      }
    }
  }

  // ---- one answer

  /** The ask on row id may be answered so by u: theirs, not from a session they were removed from, not replaced. */
  predicate MayAnswer(st: State, id: nat, u: string, response: string) {
    && u != "" && (response == "accepted" || response == "declined")
    && id < |st.notifications| && st.notifications[id].recipient == u
    && (var p := st.notifications[id].payload;
        && (p.submission != "" && p.kind in {"participation_request", "participation_update", "final_roster"} ==>
              !RemovedFrom(st.removals, u, p.submission))
        && (p.submission != "" && p.kind in {"participation_request", "participation_update"} ==>
              forall k: nat :: id < k < |st.notifications| ==> !AsksAt(st.notifications, k, u, p.submission)))
  }

  /** Declining row id is u's second standing decline for its session. */
  predicate SecondDecline(ns: seq<Notification>, id: nat, u: string, response: string)
    requires id < |ns|
  {
    && response == "declined" && ns[id].payload.submission != ""
    && AsksAt(ns, id, u, ns[id].payload.submission) && OtherDeclined(ns, id, u, ns[id].payload.submission)
  }

  lemma MayAnswerExactly(st: State, id: nat, u: string, response: string, reason: string)
    ensures Respond(st, id, u, response, reason).1.Answered? <==> MayAnswer(st, id, u, response)
    ensures Respond(st, id, u, response, reason).1.Refused? ==> Respond(st, id, u, response, reason).0 == st
  {
    hide RemoveProvider, CountDeclines, RemovedSet;
    if id < |st.notifications| {
      RemovedExactly(st.removals, u, st.notifications[id].payload.submission);
      NewerExactly(st.notifications, id, st.notifications[id].payload.submission);
    }
  }

  lemma NewerExactly(ns: seq<Notification>, id: nat, s: string)
    requires id < |ns|
    ensures HasNewerAsk(ns, id, s) <==> exists k: nat | id < k < |ns| :: AsksAt(ns, k, ns[id].recipient, s)
  {
    if HasNewerAsk(ns, id, s) {
      var k :| id < k < |ns| && IsAsk(ns[k], ns[id].recipient, s);
      assert AsksAt(ns, k, ns[id].recipient, s);
    }
    if k: nat :| id < k < |ns| && AsksAt(ns, k, ns[id].recipient, s) {
      assert IsAsk(ns[k], ns[id].recipient, s);
    }
  }

  lemma SecondDeclineExactly(ns: seq<Notification>, id: nat, u: string, s: string)
    requires id < |ns| && AsksAt(ns, id, u, s)
    ensures var answered := ns[id := ns[id].(response := Some(DECLINED))];
      CountDeclines(answered, u, s) >= 2 <==> OtherDeclined(ns, id, u, s)
  {
    hide CountDeclines, Declines, Mine;
    var answered := ns[id := ns[id].(response := Some(DECLINED))];
    var a, b := ns[..id], ns[id + 1..];
    CountsSplit(answered, id, u, s);
    assert answered[..id] == a && answered[id + 1..] == b;
    CountIsDeclines(a, u, s);
    CountIsDeclines(b, u, s);
    DeclinesExactly(a, u, s);
    DeclinesExactly(b, u, s);
    if OtherDeclined(ns, id, u, s) {
      var k: nat :| k < |ns| && k != id && AsksAt(ns, k, u, s) && ns[k].response == Some("declined");
      if k < id {
        assert AsksAt(a, k, u, s) && a[k] == ns[k];
      } else {
        assert AsksAt(b, k - id - 1, u, s) && b[k - id - 1] == ns[k];
      }
    }
    if CountDeclines(a, u, s) >= 1 {
      var k: nat :| k < |a| && AsksAt(a, k, u, s) && a[k].response == Some("declined");
      assert AsksAt(ns, k, u, s) && ns[k] == a[k];
    }
    if CountDeclines(b, u, s) >= 1 {
      var k: nat :| k < |b| && AsksAt(b, k, u, s) && b[k].response == Some("declined");
      assert AsksAt(ns, id + 1 + k, u, s) && ns[id + 1 + k] == b[k];
    }
  }

  /**
   * Main result: exactly which answers are taken, and what each leaves. The row carries the answer
   * given, every other row stays as it was and rows are only appended; a second standing decline,
   * and nothing else, removes its sender and appends what the removal sends.
   */
  lemma {:induction false} RespondExactly(st: State, id: nat, u: string, response: string, reason: string)
    ensures var (t, reply) := Respond(st, id, u, response, reason);
      if !MayAnswer(st, id, u, response) then t == st && reply.Refused?
      else
        var ns, n := st.notifications, st.notifications[id].(response := Some(response));
        var s := n.payload.submission;
        if SecondDecline(ns, id, u, response)
        then
          && reply == Answered(true, "") && t.removals == st.removals + [Removal(s, u, reason)]
          && t.notifications == ns[id := n] + FanOut(ns[id := n], t.removals, n)
        else
          && reply == Answered(false, if response == "accepted" then s else "")
          && t == State(ns[id := n], st.removals)
  {
    hide FanOut, CountDeclines, RemovedSet;
    MayAnswerExactly(st, id, u, response, reason);
    if MayAnswer(st, id, u, response) {
      var s := st.notifications[id].payload.submission;
      RemovedExactly(st.removals, u, s);
      if AsksAt(st.notifications, id, u, s) {
        SecondDeclineExactly(st.notifications, id, u, s);
      }
    }
  }

  /** So an answer that is taken stands on its row, and no other row changes. */
  lemma {:induction false} AnsweredRows(st: State, id: nat, u: string, response: string, reason: string)
    ensures var (t, reply) := Respond(st, id, u, response, reason);
      var ns, ns' := st.notifications, t.notifications;
      if !MayAnswer(st, id, u, response) then t == st && reply.Refused?
      else
        && reply.Answered? && |ns| <= |ns'| && id < |ns|
        && ns'[id] == ns[id].(response := Some(response))
        && forall i :: 0 <= i < |ns| && i != id ==> ns'[i] == ns[i]
  {
    hide Respond, FanOut, SecondDecline;
    RespondExactly(st, id, u, response, reason);
  }

  // ---- answers over a run

  /** The answer op gives to row id of st, if it gives one. */
  function AnswerTo(st: State, op: Op, id: nat): Option<string>
    requires id < |st.notifications|
  {
    match op
    case PostOp(_, _, _) => None
    case RespondOp(row, u, response, _) =>
      if row == id && MayAnswer(st, id, u, response) then Some(response) else None
    case AnswerByIdOp(row, username, response) =>
      if row == id && st.notifications[id].recipient == ProviderIdForUsername(username)
         && (response == "accepted" || response == "withdrawn")
      then Some(response) else None
    case SupersedeOp(contractId) =>
      if st.notifications[id].payload.signs == Some(contractId) then Some("superseded") else None
  }

  /** Rows are only appended, unanswered, and a row already there changes by the answer it is given alone. */
  lemma {:induction false} ApplyAnswers(st: State, op: Op)
    ensures var ns, ns' := st.notifications, Apply(st, op).notifications;
      && |ns| <= |ns'|
      && (forall i: nat :: i < |ns| ==>
            var answer := AnswerTo(st, op, i);
            ns'[i] == if answer.Some? then ns[i].(response := answer) else ns[i])
      && (forall i :: |ns| <= i < |ns'| ==> ns'[i].response.None?)
  {
    hide Post, Respond, MayAnswer, ProviderIdForUsername, FanOut;
    match op
    case PostOp(rs, sender, p) =>
      PostExtends(st, rs, sender, p);
      PostUnanswered(st, rs, sender, p);
    case RespondOp(id, u, response, reason) =>
      RespondExactly(st, id, u, response, reason);
      if MayAnswer(st, id, u, response) {
        MayAnswerInRange(st, id, u, response);
        var n := st.notifications[id].(response := Some(response));
        var removals := st.removals + [Removal(n.payload.submission, u, reason)];
        FanOutAppendable(st.notifications[id := n], removals, n);
      }
    case _ =>
  }

  lemma MayAnswerInRange(st: State, id: nat, u: string, response: string)
    ensures MayAnswer(st, id, u, response) ==> id < |st.notifications|
  {
  }

  lemma {:induction false} PostUnanswered(st: State, rs: seq<Recipient>, sender: string, p: Payload)
    ensures var ns, ns' := st.notifications, Post(st, rs, sender, p).notifications;
      |ns| <= |ns'| && forall i :: |ns| <= i < |ns'| ==> ns'[i].response.None?
  {
    if rs != [] {
      PostUnanswered(st, rs[..|rs| - 1], sender, p);
    }
  }

  /** Step k of the run gives row id the answer. */
  ghost predicate AnsweredAt(ops: seq<Op>, id: nat, k: nat, answer: string) {
    k < |ops| && id < |Run(EMPTY, ops[..k]).notifications| && AnswerTo(Run(EMPTY, ops[..k]), ops[k], id) == Some(answer)
  }

  ghost predicate LastAnsweredAt(ops: seq<Op>, id: nat, k: nat, answer: string) {
    AnsweredAt(ops, id, k, answer) && forall m: nat, other :: k < m < |ops| ==> !AnsweredAt(ops, id, m, other)
  }

  ghost predicate NeverAnswered(ops: seq<Op>, id: nat) {
    forall k: nat, answer :: k < |ops| ==> !AnsweredAt(ops, id, k, answer)
  }

  /** What row id carries: the last answer given to it. */
  ghost predicate CarriesLastAnswer(ops: seq<Op>, id: nat, response: Option<string>) {
    match response
    case None => NeverAnswered(ops, id)
    case Some(answer) => exists k: nat | k < |ops| :: LastAnsweredAt(ops, id, k, answer)
  }

  lemma AnswersGrow(ops: seq<Op>, op: Op, id: nat)
    ensures forall k: nat, answer :: k < |ops| ==>
      (AnsweredAt(ops + [op], id, k, answer) <==> AnsweredAt(ops, id, k, answer))
    ensures var st := Run(EMPTY, ops);
      forall answer :: AnsweredAt(ops + [op], id, |ops|, answer) <==>
        id < |st.notifications| && AnswerTo(st, op, id) == Some(answer)
  {
    hide AnswerTo, Run;
    var all := ops + [op];
    assert all[..|ops|] == ops;
    forall k: nat, answer | k < |ops| ensures AnsweredAt(all, id, k, answer) <==> AnsweredAt(ops, id, k, answer) {
      assert all[..k] == ops[..k];
    }
  }

  lemma CarriesAfter(ops: seq<Op>, op: Op, id: nat, was: Option<string>, now: Option<string>)
    requires CarriesLastAnswer(ops, id, was)
    requires var st := Run(EMPTY, ops);
      var answer := if id < |st.notifications| then AnswerTo(st, op, id) else None;
      now == if answer.Some? then answer else was
    ensures CarriesLastAnswer(ops + [op], id, now)
  {
    hide AnswerTo, Run, AnsweredAt;
    var all := ops + [op];
    AnswersGrow(ops, op, id);
    if now.Some? {
      if AnsweredAt(all, id, |ops|, now.value) {
        assert LastAnsweredAt(all, id, |ops|, now.value);
      } else {
        var k: nat :| k < |ops| && LastAnsweredAt(ops, id, k, now.value);
        assert LastAnsweredAt(all, id, k, now.value);
      }
    }
  }

  /** Main result: after every run, a row's response is the last answer given to it, and none without one. */
  lemma {:induction false} ResponseIsLastAnswer(ops: seq<Op>, id: nat)
    ensures var ns := Run(EMPTY, ops).notifications;
      CarriesLastAnswer(ops, id, if id < |ns| then ns[id].response else None)
  {
    hide Apply, AnswerTo, CarriesLastAnswer;
    if ops == [] {
      NothingAnswered(id);
    } else {
      var n := |ops| - 1;
      var st := Run(EMPTY, ops[..n]);
      ResponseIsLastAnswer(ops[..n], id);
      ApplyAnswers(st, ops[n]);
      var ns, ns' := st.notifications, Apply(st, ops[n]).notifications;
      assert Run(EMPTY, ops) == Apply(st, ops[n]);
      CarriesAfter(ops[..n], ops[n], id, if id < |ns| then ns[id].response else None,
                   if id < |ns'| then ns'[id].response else None);
      assert ops[..n] + [ops[n]] == ops;
    }
  }

  lemma NothingAnswered(id: nat)
    ensures CarriesLastAnswer([], id, None)
  {
  }

  // ---- what a removal sends

  predicate Distinct(names: seq<string>) {
    forall i, k :: 0 <= i < k < |names| ==> names[i] != names[k]
  }

  lemma DistinctGrows(names: seq<string>, u: string)
    ensures Distinct(names + [u]) <==> Distinct(names) && u !in names
  {
    var all := names + [u];
    if Distinct(all) {
      forall i, k | 0 <= i < k < |names| ensures names[i] != names[k] {
        assert all[i] == names[i] && all[k] == names[k];
      }
      forall i | 0 <= i < |names| ensures names[i] != u {
        assert all[i] == names[i] && all[|names|] == u;
      }
    }
  }

  lemma {:induction false} LatestAt(ns: seq<Notification>, u: string, s: string) returns (k: nat)
    requires LatestRequest(ns, u, s).Some?
    ensures k < |ns| && NewestRequestAt(ns, k, u, s) && ns[k] == LatestRequest(ns, u, s).value
  {
    k := |ns| - 1;
    if !IsRequest(ns[k], u, s) {
      var n := k;
      k := LatestAt(ns[..n], u, s);
      assert forall m: nat :: m < n ==> (RequestsAt(ns[..n], m, u, s) <==> RequestsAt(ns, m, u, s));
    }
  }

  lemma {:induction false} LatestExactly(ns: seq<Notification>, u: string, s: string)
    ensures LatestRequest(ns, u, s).Some? <==> WasRequested(ns, u, s)
    ensures LatestRequest(ns, u, s).Some? ==>
      (LatestRequest(ns, u, s).value.response == Some(ACCEPTED) <==> StandsAccepted(ns, u, s))
  {
    hide LatestRequest;
    if LatestRequest(ns, u, s).Some? {
      var k := LatestAt(ns, u, s);
    } else {
      NoLatest(ns, u, s);
    }
  }

  lemma {:induction false} NoLatest(ns: seq<Notification>, u: string, s: string)
    requires LatestRequest(ns, u, s).None?
    ensures forall k: nat :: !RequestsAt(ns, k, u, s)
  {
    if ns != [] {
      NoLatest(ns[..|ns| - 1], u, s);
      forall k: nat ensures !RequestsAt(ns, k, u, s) {
        assert k < |ns| - 1 ==> !RequestsAt(ns[..|ns| - 1], k, u, s);
      }
    }
  }

  lemma {:induction false} RequestedExactly(ns: seq<Notification>, s: string, u: string)
    ensures u in Requested(ns, s) <==> LatestRequest(ns, u, s).Some?
    ensures Distinct(Requested(ns, s))
  {
    if ns != [] {
      RequestedExactly(ns[..|ns| - 1], s, u);
    }
  }

  lemma RequestsGrow(ns: seq<Notification>, u: string, s: string)
    requires ns != []
    ensures forall k: nat :: RequestsAt(ns, k, u, s) <==>
      RequestsAt(ns[..|ns| - 1], k, u, s) || (k == |ns| - 1 && IsRequest(ns[k], u, s))
  {
  }

  ghost function RequestSet(ns: seq<Notification>, u: string, s: string): set<nat> {
    set k: nat | k < |ns| && RequestsAt(ns, k, u, s)
  }

  lemma RequestSetGrows(ns: seq<Notification>, u: string, s: string)
    requires ns != []
    ensures var n, init := |ns| - 1, RequestSet(ns[..|ns| - 1], u, s);
      && n !in init
      && RequestSet(ns, u, s) == if IsRequest(ns[n], u, s) then init + {n} else init
  {
    hide IsRequest;
    RequestsGrow(ns, u, s);
  }

  lemma {:induction false} RequestCount(ns: seq<Notification>, u: string, s: string)
    ensures CountRequests(ns, u, s) == |set k: nat | k < |ns| && RequestsAt(ns, k, u, s)|
  {
    hide RequestsAt, IsRequest, RequestSet;
    RequestSetIs(ns, u, s);
    if ns == [] {
      NoRequests(u, s);
    } else {
      RequestCount(ns[..|ns| - 1], u, s);
      RequestSetGrows(ns, u, s);
      RequestSetIs(ns[..|ns| - 1], u, s);
    }
  }

  lemma RequestSetIs(ns: seq<Notification>, u: string, s: string)
    ensures RequestSet(ns, u, s) == set k: nat | k < |ns| && RequestsAt(ns, k, u, s)
  {
  }

  lemma NoRequests(u: string, s: string)
    ensures RequestSet([], u, s) == {}
  {
  }

  lemma {:induction false} RemainingExactly(ns: seq<Notification>, names: seq<string>, removed: set<string>, s: string)
    requires Distinct(names)
    ensures var rs := Remaining(ns, names, removed, s);
      && Distinct(Usernames(rs))
      && (forall u :: u in Usernames(rs) <==> u in names && u !in removed && LatestRequest(ns, u, s).Some?)
      && (forall r <- rs :: LatestRequest(ns, r.username, s).Some?
            && r.id == LatestRequest(ns, r.username, s).value.recipientId)
  {
    hide LatestRequest;
    if names != [] {
      var k := |names| - 1;
      var init, rs := Remaining(ns, names[..k], removed, s), Remaining(ns, names, removed, s);
      RemainingExactly(ns, names[..k], removed, s);
      assert names == names[..k] + [names[k]];
      if rs != init {
        assert Usernames(rs) == Usernames(init) + [names[k]];
        DistinctGrows(Usernames(init), names[k]);
      }
    }
  }

  lemma {:induction false} WillingExactly(ns: seq<Notification>, rs: seq<Recipient>, s: string)
    requires Distinct(Usernames(rs))
    ensures Distinct(Willing(ns, rs, s))
    ensures forall u :: u in Willing(ns, rs, s) <==>
      (&& u in Usernames(rs) && LatestRequest(ns, u, s).Some?
       && LatestRequest(ns, u, s).value.response == Some(ACCEPTED))
  {
    hide LatestRequest;
    if rs != [] {
      var k := |rs| - 1;
      assert Usernames(rs) == Usernames(rs[..k]) + [rs[k].username];
      DistinctGrows(Usernames(rs[..k]), rs[k].username);
      WillingExactly(ns, rs[..k], s);
      if rs[k].username !in Willing(ns, rs[..k], s) {
        DistinctGrows(Willing(ns, rs[..k], s), rs[k].username);
      }
    }
  }

  /** Requested for s and not removed from it. */
  predicate IsRemaining(ns: seq<Notification>, removals: seq<Removal>, u: string, s: string) {
    WasRequested(ns, u, s) && !RemovedFrom(removals, u, s)
  }

  /** Exactly the remaining, each once, and exactly those of them whose newest request stands accepted. */
  ghost predicate ListsRemaining(ns: seq<Notification>, removals: seq<Removal>, s: string, remaining: seq<string>,
                                 willing: seq<string>)
  {
    && Distinct(remaining) && (forall u :: u in remaining <==> IsRemaining(ns, removals, u, s))
    && Distinct(willing)
    && (forall u :: u in willing <==> IsRemaining(ns, removals, u, s) && StandsAccepted(ns, u, s))
  }

  /** The update sent to u: their newest request's recipient, their rounds so far, warned if they declined one. */
  ghost predicate IsUpdateFor(ns: seq<Notification>, id: nat, u: string, declined: Notification,
                              remaining: seq<string>, willing: seq<string>, row: Notification)
  {
    var s := declined.payload.submission;
    var round := |set k: nat | k < |ns| && RequestsAt(ns, k, u, s)|;
    var warned := exists k: nat | k < |ns| :: AsksAt(ns, k, u, s) && ns[k].response == Some("declined");
    exists k: nat | k < |ns| :: NewestRequestAt(ns, k, u, s) && row ==
      Notification(id, ns[k].recipientId, u, declined.sender,
                   Payload("participation_update", s, declined.payload.ownerId, round, warned, [], remaining, willing,
                           None), None, true)
  }

  /** The rows a removal appends to ns: the two notices, then one update to each remaining provider. */
  ghost predicate FansOut(ns: seq<Notification>, declined: Notification, remaining: seq<string>, willing: seq<string>,
                          rows: seq<Notification>)
  {
    var p := declined.payload;
    && |rows| == 2 + |remaining|
    && rows[0] == Notification(|ns|, if p.ownerId == "" then declined.sender else p.ownerId, declined.sender,
                               declined.recipient, Payload("provider_removed", p.submission, "", 0, false, [],
                                                           remaining, willing, None), None, true)
    && rows[1] == Notification(|ns| + 1, declined.recipientId, declined.recipient, declined.sender,
                               Payload("removed_from_session", p.submission, p.ownerId, 0, false, [], [], [], None),
                               None, true)
    && forall i :: 0 <= i < |remaining| ==>
      IsUpdateFor(ns, |ns| + 2 + i, remaining[i], declined, remaining, willing, rows[2 + i])
  }

  lemma UpdateExactly(ns: seq<Notification>, id: nat, r: Recipient, declined: Notification, remaining: seq<string>,
                      willing: seq<string>)
    requires var s := declined.payload.submission;
      LatestRequest(ns, r.username, s).Some? && r.id == LatestRequest(ns, r.username, s).value.recipientId
    ensures IsUpdateFor(ns, id, r.username, declined, remaining, willing,
                        UpdateFor(ns, id, r, declined, remaining, willing))
  {
    hide LatestRequest, CountRequests, CountDeclines, RequestsAt, AsksAt;
    var s := declined.payload.submission;
    RequestCount(ns, r.username, s);
    DeclinesExactly(ns, r.username, s);
    var k := LatestAt(ns, r.username, s);
  }

  /**
   * Main result: a removal tells the owner and the removed provider, and each remaining provider once,
   * and the lists it sends are exactly the remaining and exactly the willing among them.
   */
  lemma {:induction false} FanOutExactly(ns: seq<Notification>, removals: seq<Removal>, declined: Notification)
    ensures exists remaining, willing ::
      && ListsRemaining(ns, removals, declined.payload.submission, remaining, willing)
      && FansOut(ns, declined, remaining, willing, FanOut(ns, removals, declined))
  {
    hide LatestRequest, Requested, Remaining, Willing, UpdateFor, IsUpdateFor, RemovedSet, IsRemaining, StandsAccepted;
    var s := declined.payload.submission;
    var names, gone := Requested(ns, s), RemovedSet(removals, s);
    var rs := Remaining(ns, names, gone, s);
    var remaining, willing := Usernames(rs), Willing(ns, rs, s);
    forall u ensures u in names <==> LatestRequest(ns, u, s).Some? { RequestedExactly(ns, s, u); }
    RequestedExactly(ns, s, "");
    RemainingExactly(ns, names, gone, s);
    WillingExactly(ns, rs, s);
    forall u
      ensures IsRemaining(ns, removals, u, s) <==> u in remaining
      ensures u in remaining ==>
        (StandsAccepted(ns, u, s) <==> LatestRequest(ns, u, s).value.response == Some(ACCEPTED))
    {
      LatestExactly(ns, u, s);
      RemainingMeans(ns, removals, u, s);
    }
    assert ListsRemaining(ns, removals, s, remaining, willing);
    var rows := FanOut(ns, removals, declined);
    forall i | 0 <= i < |remaining|
      ensures IsUpdateFor(ns, |ns| + 2 + i, remaining[i], declined, remaining, willing, rows[2 + i])
    {
      assert rs[i] in rs;
      UpdateExactly(ns, |ns| + 2 + i, rs[i], declined, remaining, willing);
    }
    assert FansOut(ns, declined, remaining, willing, rows);
  }

  lemma RemainingMeans(ns: seq<Notification>, removals: seq<Removal>, u: string, s: string)
    ensures IsRemaining(ns, removals, u, s) <==> WasRequested(ns, u, s) && u !in RemovedSet(removals, s)
  {
    RemovedExactly(removals, u, s);
  }

  // ---- what a posting stores

  /** u was removed from the session the payload is about, and must not be shown or sent it. */
  predicate Hidden(st: State, p: Payload, u: string) {
    && p.submission != "" && p.kind in {"participation_request", "participation_update", "final_roster"}
    && RemovedFrom(st.removals, u, p.submission)
  }

  /** How many of the first i names are shown. */
  function Shown(st: State, p: Payload, list: seq<string>, i: nat): nat
    requires i <= |list|
  {
    if i == 0 then 0 else Shown(st, p, list, i - 1) + (if Hidden(st, p, list[i - 1]) then 0 else 1)
  }

  /** kept is the names of list not hidden, in their order: each stands behind as many as are shown before it. */
  ghost predicate Keeps(st: State, p: Payload, list: seq<string>, kept: seq<string>) {
    && |kept| == Shown(st, p, list, |list|)
    && forall i: nat :: i < |list| && !Hidden(st, p, list[i]) ==>
      Shown(st, p, list, i) < |kept| && kept[Shown(st, p, list, i)] == list[i]
  }

  lemma HiddenExactly(st: State, p: Payload, u: string)
    ensures u in Barred(st, p) <==> Hidden(st, p, u)
  {
    RemovedExactly(st.removals, u, p.submission);
  }

  lemma {:induction false} ShownPrefix(st: State, p: Payload, list: seq<string>, u: string, i: nat)
    requires i <= |list|
    ensures Shown(st, p, list + [u], i) == Shown(st, p, list, i) <= Shown(st, p, list, |list|)
    decreases i, |list|
  {
    hide Hidden;
    if i > 0 {
      ShownPrefix(st, p, list, u, i - 1);
    }
    ShownGrows(st, p, list, i, |list|);
  }

  lemma {:induction false} ShownGrows(st: State, p: Payload, list: seq<string>, i: nat, k: nat)
    requires i <= k <= |list|
    ensures Shown(st, p, list, i) <= Shown(st, p, list, k)
    ensures i < k && !Hidden(st, p, list[i]) ==> Shown(st, p, list, i) < Shown(st, p, list, k)
    decreases k
  {
    hide Hidden;
    if i < k {
      ShownGrows(st, p, list, i, k - 1);
    }
  }

  lemma KeepsGrows(st: State, p: Payload, list: seq<string>, u: string, kept: seq<string>)
    requires Keeps(st, p, list, kept)
    ensures Keeps(st, p, list + [u], kept + (if Hidden(st, p, u) then [] else [u]))
  {
    hide Hidden, Shown;
    var all, kept' := list + [u], kept + (if Hidden(st, p, u) then [] else [u]);
    ShownPrefix(st, p, list, u, |list|);
    ShownLast(st, p, list, u);
    forall i: nat | i < |all| && !Hidden(st, p, all[i])
      ensures Shown(st, p, all, i) < |kept'| && kept'[Shown(st, p, all, i)] == all[i]
    {
      ShownPrefix(st, p, list, u, i);
    }
  }

  lemma KeepsNothing(st: State, p: Payload)
    ensures Keeps(st, p, [], [])
  {
    hide Hidden;
  }

  lemma {:induction false} WithoutExactly(st: State, p: Payload, list: seq<string>)
    ensures Keeps(st, p, list, Without(list, Barred(st, p)))
  {
    hide Hidden, Keeps, Barred;
    if list == [] {
      KeepsNothing(st, p);
    } else {
      var n := |list| - 1;
      WithoutExactly(st, p, list[..n]);
      HiddenExactly(st, p, list[n]);
      KeepsGrows(st, p, list[..n], list[n], Without(list[..n], Barred(st, p)));
      assert list == list[..n] + [list[n]];
    }
  }

  /** Who a row is to and from: the posting's recipient and sender, unanswered. */
  predicate Addressed(st: State, r: Recipient, sender: string, row: Notification) {
    && row.id == |st.notifications| && row.recipientId == r.id && row.recipient == r.username
    && row.sender == sender && row.response.None? && !row.fanOut
  }

  /**
   * The payload stored for u: as posted but for the hidden names, and a session's request carries
   * the number of requests to u so far, this one included, and whether an ask of theirs stands declined.
   */
  ghost predicate StoredFor(st: State, u: string, p: Payload, q: Payload) {
    var ns, s := st.notifications, p.submission;
    && q.kind == p.kind && q.submission == p.submission && q.ownerId == p.ownerId && q.signs == p.signs
    && Keeps(st, p, p.selected, q.selected)
    && Keeps(st, p, p.requested, q.requested)
    && Keeps(st, p, p.willing, q.willing)
    && if p.kind == "participation_request" && s != ""
       then
         && q.round == |set k: nat | k < |ns| && RequestsAt(ns, k, u, s)| + 1
         && (q.finalWarning <==>
             exists k: nat | k < |ns| :: AsksAt(ns, k, u, s) && ns[k].response == Some("declined"))
       else q.round == p.round && q.finalWarning == p.finalWarning
  }

  lemma {:induction false} StampedExactly(st: State, u: string, p: Payload)
    ensures StoredFor(st, u, p, StampedPayload(st, u, p))
  {
    hide Keeps, Barred, CountRequests, CountDeclines, Without, RequestsAt, AsksAt;
    WithoutExactly(st, p, p.selected);
    WithoutExactly(st, p, p.requested);
    WithoutExactly(st, p, p.willing);
    RequestCount(st.notifications, u, p.submission);
    DeclinesExactly(st.notifications, u, p.submission);
  }

  ghost predicate PostedOn(st: State, r: Recipient, sender: string, p: Payload, row: Notification) {
    Addressed(st, r, sender, row) && StoredFor(st, r.username, p, row.payload)
  }

  /**
   * t is st with one row for each recipient that is not hidden, in their order, and none for the
   * others; each row is what the rows before it make of the payload for its recipient.
   */
  ghost predicate Posted(st: State, rs: seq<Recipient>, sender: string, p: Payload, t: State) {
    var n, names := |st.notifications|, Usernames(rs);
    && t.removals == st.removals && st.notifications <= t.notifications
    && |t.notifications| == n + Shown(st, p, names, |names|)
    && forall i: nat :: i < |rs| && !Hidden(st, p, names[i]) ==>
      RowFor(st, rs[i], sender, p, t, n + Shown(st, p, names, i))
  }

  ghost predicate RowFor(st: State, r: Recipient, sender: string, p: Payload, t: State, at: nat) {
    at < |t.notifications| && PostedOn(State(t.notifications[..at], st.removals), r, sender, p, t.notifications[at])
  }

  lemma PostOneExactly(st: State, r: Recipient, sender: string, p: Payload)
    ensures var t := PostOne(st, r, sender, p);
      && (Hidden(st, p, r.username) ==> t == st)
      && (!Hidden(st, p, r.username) ==>
            && |t.notifications| == |st.notifications| + 1 && t.removals == st.removals
            && t.notifications[..|st.notifications|] == st.notifications
            && PostedOn(st, r, sender, p, t.notifications[|st.notifications|]))
  {
    hide StampedPayload, StoredFor, Barred, Hidden;
    HiddenExactly(st, p, r.username);
    StampedExactly(st, r.username, p);
  }

  lemma RowStays(st: State, r: Recipient, sender: string, p: Payload, t: State, u: State, at: nat)
    requires RowFor(st, r, sender, p, t, at) && t.notifications <= u.notifications
    ensures RowFor(st, r, sender, p, u, at)
  {
    hide PostedOn;
    assert u.notifications[..at] == t.notifications[..at];
  }

  lemma LastRow(st: State, r: Recipient, sender: string, p: Payload, t: State)
    requires t.removals == st.removals && !Hidden(t, p, r.username)
    ensures RowFor(st, r, sender, p, PostOne(t, r, sender, p), |t.notifications|)
  {
    hide PostedOn, PostOne, Hidden;
    PostOneExactly(t, r, sender, p);
    assert State(t.notifications, st.removals) == t;
  }

  lemma PostedGrows(st: State, rs: seq<Recipient>, r: Recipient, sender: string, p: Payload, t: State)
    requires Posted(st, rs, sender, p, t)
    ensures Posted(st, rs + [r], sender, p, PostOne(t, r, sender, p))
  {
    hide PostedOn, PostOne, Hidden, RowFor, Shown;
    var u, names := PostOne(t, r, sender, p), Usernames(rs);
    PostOneExactly(t, r, sender, p);
    HiddenAlike(st, t, p, r.username);
    ShownPrefix(st, p, names, r.username, |rs|);
    ShownLast(st, p, names, r.username);
    assert Usernames(rs + [r]) == names + [r.username];
    forall i: nat | i <= |rs| && !Hidden(st, p, (names + [r.username])[i])
      ensures RowFor(st, (rs + [r])[i], sender, p, u, |st.notifications| + Shown(st, p, names + [r.username], i))
    {
      ShownPrefix(st, p, names, r.username, i);
      if i < |rs| {
        RowStays(st, rs[i], sender, p, t, u, |st.notifications| + Shown(st, p, names, i));
      } else {
        LastRow(st, r, sender, p, t);
      }
    }
  }

  lemma ShownLast(st: State, p: Payload, list: seq<string>, u: string)
    ensures Shown(st, p, list + [u], |list| + 1) == Shown(st, p, list, |list|) + (if Hidden(st, p, u) then 0 else 1)
  {
    hide Hidden;
    ShownPrefix(st, p, list, u, |list|);
  }

  lemma HiddenAlike(st: State, t: State, p: Payload, u: string)
    requires t.removals == st.removals
    ensures Hidden(t, p, u) == Hidden(st, p, u)
  {
  }

  /** Main result: what a posting stores, for any number of recipients. */
  lemma {:induction false} PostExactly(st: State, rs: seq<Recipient>, sender: string, p: Payload)
    ensures Posted(st, rs, sender, p, Post(st, rs, sender, p))
  {
    hide Posted, PostOne;
    if rs == [] {
      PostedNothing(st, sender, p);
    } else {
      var n := |rs| - 1;
      PostExactly(st, rs[..n], sender, p);
      PostedGrows(st, rs[..n], rs[n], sender, p, Post(st, rs[..n], sender, p));
      assert rs == rs[..n] + [rs[n]];
    }
  }

  lemma PostedNothing(st: State, sender: string, p: Payload)
    ensures Posted(st, [], sender, p, st)
  {
    hide Hidden, RowFor;
  }
}
