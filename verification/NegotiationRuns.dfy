/**
 * Runs of the participation negotiation, with every writer of an answer: nobody is removed without
 * a final warning. NegotiationAnswers says whose answers stand.
 */
module NegotiationRuns {
  import opened Wrappers
  import opened Text
  import opened Negotiation

  datatype Op =
    | PostOp(recipients: seq<Recipient>, sender: string, payload: Payload)
    | RespondOp(id: nat, username: string, response: string, reason: string)
    | AnswerByIdOp(id: nat, username: string, response: string)
    | SupersedeOp(contractId: string)

  function Apply(st: State, op: Op): State {
    match op
    case PostOp(rs, sender, p) => Post(st, rs, sender, p)
    case RespondOp(id, username, response, reason) => Respond(st, id, username, response, reason).0
    case AnswerByIdOp(id, username, response) => AnswerById(st, id, username, response)
    case SupersedeOp(contractId) => SupersedeSigns(st, contractId)
  }

  function Run(st: State, ops: seq<Op>): State {
    if ops == [] then st else Apply(Run(st, ops[..|ops| - 1]), ops[|ops| - 1])
  }

  const EMPTY := State([], [])

  // ---- one provider's notifications of some kinds for one session

  predicate Matches(n: Notification, username: string, submission: string, kinds: set<string>) {
    n.recipient == username && n.payload.submission == submission && n.payload.kind in kinds
  }

  function Mine(ns: seq<Notification>, username: string, submission: string, kinds: set<string>): seq<Notification> {
    if ns == [] then []
    else
      Mine(ns[..|ns| - 1], username, submission, kinds) +
      (if Matches(ns[|ns| - 1], username, submission, kinds) then [ns[|ns| - 1]] else [])
  }

  function Asks(st: State, username: string, submission: string): seq<Notification> {
    Mine(st.notifications, username, submission, ASK_KINDS)
  }

  function Declines(asks: seq<Notification>): nat {
    if asks == [] then 0
    else Declines(asks[..|asks| - 1]) + (if asks[|asks| - 1].response == Some(DECLINED) then 1 else 0)
  }

  lemma {:induction false} MineOfConcat(a: seq<Notification>, b: seq<Notification>, u: string, s: string,
                                        kinds: set<string>)
    ensures Mine(a + b, u, s, kinds) == Mine(a, u, s, kinds) + Mine(b, u, s, kinds)
  {
    if b == [] {
      assert a + b == a;
    } else {
      var n := |b| - 1;
      assert (a + b)[..|a + b| - 1] == a + b[..n];
      MineOfConcat(a, b[..n], u, s, kinds);
    }
  }

  lemma {:induction false} NoneMine(b: seq<Notification>, u: string, s: string, kinds: set<string>)
    requires forall n <- b :: !Matches(n, u, s, kinds)
    ensures Mine(b, u, s, kinds) == []
  {
    if b != [] {
      assert b[|b| - 1] in b;
      NoneMine(b[..|b| - 1], u, s, kinds);
    }
  }

  lemma {:induction false} CountIsDeclines(ns: seq<Notification>, u: string, s: string)
    ensures CountDeclines(ns, u, s) == Declines(Mine(ns, u, s, ASK_KINDS))
  {
    if ns != [] {
      CountIsDeclines(ns[..|ns| - 1], u, s);
      var init := Mine(ns[..|ns| - 1], u, s, ASK_KINDS);
      assert (init + [ns[|ns| - 1]])[..|init|] == init;
      assert init + [] == init;
    }
  }

  lemma {:induction false} DeclinesOfConcat(a: seq<Notification>, b: seq<Notification>)
    ensures Declines(a + b) == Declines(a) + Declines(b)
  {
    if b == [] {
      assert a + b == a;
    } else {
      assert (a + b)[..|a + b| - 1] == a + b[..|b| - 1];
      DeclinesOfConcat(a, b[..|b| - 1]);
    }
  }

  lemma {:induction false} UnansweredAddNone(b: seq<Notification>)
    requires forall n <- b :: n.response.None?
    ensures Declines(b) == 0
  {
    if b != [] {
      assert b[|b| - 1] in b;
      UnansweredAddNone(b[..|b| - 1]);
    }
  }

  /** Answering row id changes nothing for anyone it does not match. */
  lemma AnswerElsewhere(ns: seq<Notification>, id: nat, n: Notification, u: string, s: string, kinds: set<string>)
    requires id < |ns| && n == ns[id].(response := n.response) && !Matches(ns[id], u, s, kinds)
    ensures Mine(ns[id := n], u, s, kinds) == Mine(ns, u, s, kinds)
  {
    var a, b := ns[..id], ns[id + 1..];
    assert ns == (a + [ns[id]]) + b && ns[id := n] == (a + [n]) + b;
    MineOfConcat(a + [ns[id]], b, u, s, kinds);
    MineOfConcat(a + [n], b, u, s, kinds);
    MineOfConcat(a, [ns[id]], u, s, kinds);
    MineOfConcat(a, [n], u, s, kinds);
    NoneMine([ns[id]], u, s, kinds);
    NoneMine([n], u, s, kinds);
  }

  /** Answering the newest ask changes only the last of the provider's asks. */
  lemma AnswerNewest(ns: seq<Notification>, id: nat, n: Notification, u: string, s: string)
    requires id < |ns| && n == ns[id].(response := n.response) && IsAsk(ns[id], u, s)
    requires !HasNewerAsk(ns, id, s)
    ensures var asks := Mine(ns, u, s, ASK_KINDS);
      && asks == Mine(ns[..id], u, s, ASK_KINDS) + [ns[id]]
      && Mine(ns[id := n], u, s, ASK_KINDS) == Mine(ns[..id], u, s, ASK_KINDS) + [n]
  {
    var a, b := ns[..id], ns[id + 1..];
    assert ns == (a + [ns[id]]) + b && ns[id := n] == (a + [n]) + b;
    MineOfConcat(a + [ns[id]], b, u, s, ASK_KINDS);
    MineOfConcat(a + [n], b, u, s, ASK_KINDS);
    MineOfConcat(a, [ns[id]], u, s, ASK_KINDS);
    MineOfConcat(a, [n], u, s, ASK_KINDS);
    assert Mine([ns[id]], u, s, ASK_KINDS) == [ns[id]] && Mine([n], u, s, ASK_KINDS) == [n] by {
      assert [ns[id]][..0] == [] && [n][..0] == [];
    }
    forall m | m in b ensures !Matches(m, u, s, ASK_KINDS) {
      var k :| 0 <= k < |b| && b[k] == m;
      assert ns[id + 1 + k] == m;
    }
    NoneMine(b, u, s, ASK_KINDS);
  }

  // ---- the invariant

  /** The server wrote the warning itself: a posted request, or a removal's update. */
  predicate ServerStamped(n: Notification) {
    n.fanOut || n.payload.kind == REQUEST
  }

  /**
   * Every server-stamped ask carries the warning when an older one stands declined; exactly then,
   * where nobody can undo a decline.
   */
  ghost predicate WarnedRightly(asks: seq<Notification>, exact: bool) {
    forall i :: 0 <= i < |asks| && ServerStamped(asks[i]) ==>
      && (Declines(asks[..i]) >= 1 ==> asks[i].payload.finalWarning)
      && (exact && asks[i].payload.finalWarning ==> Declines(asks[..i]) >= 1)
  }

  ghost predicate ProviderInv(st: State, u: string, s: string, exact: bool) {
    var asks := Asks(st, u, s);
    && WarnedRightly(asks, exact)
    && (if IsRemoved(st, u, s) then Declines(asks) <= 2 && (exact ==> Declines(asks) == 2) else Declines(asks) <= 1)
  }

  ghost predicate Inv(st: State) {
    forall u, s :: s != "" ==> ProviderInv(st, u, s, false)
  }

  /** No signature or withdrawal answers in u's name: u is nobody's provider_id. */
  ghost predicate OutOfReach(u: string) {
    forall name :: ProviderIdForUsername(name) != u
  }

  /** No contract's re-hash rewrites n: it is no request to sign, or superseded already. */
  predicate RehashProof(n: Notification) {
    n.payload.signs.None? || n.response == Some(SUPERSEDED)
  }

  /** None of u's asks for s is also a request to sign a contract. */
  ghost predicate PlainAsks(ns: seq<Notification>, u: string, s: string) {
    forall n <- ns :: IsAsk(n, u, s) ==> n.payload.signs.None?
  }

  predicate Names(rs: seq<Recipient>, u: string) {
    exists r <- rs :: r.username == u
  }

  /** op posts no ask for s to u that is also a request to sign. */
  predicate PlainPost(op: Op, u: string, s: string) {
    op.PostOp? && op.payload.submission == s && op.payload.kind in ASK_KINDS && Names(op.recipients, u) ==>
      op.payload.signs.None?
  }

  predicate PlainPosts(ops: seq<Op>, u: string, s: string) {
    forall i :: 0 <= i < |ops| ==> PlainPost(ops[i], u, s)
  }

  lemma WarnedGrows(asks: seq<Notification>, n: Notification, exact: bool)
    requires WarnedRightly(asks, exact)
    requires ServerStamped(n) ==>
      (Declines(asks) >= 1 ==> n.payload.finalWarning) && (exact && n.payload.finalWarning ==> Declines(asks) >= 1)
    ensures WarnedRightly(asks + [n], exact)
  {
    hide Declines;
    var all := asks + [n];
    forall i | 0 <= i < |all| && ServerStamped(all[i])
      ensures Declines(all[..i]) >= 1 ==> all[i].payload.finalWarning
      ensures exact && all[i].payload.finalWarning ==> Declines(all[..i]) >= 1
    {
      assert all[..i] == asks[..i];
      assert i == |asks| ==> asks[..i] == asks;
    }
  }

  /** Appending unanswered notifications, each warned rightly at its place, keeps the invariant for u. */
  lemma AppendOne(st: State, n: Notification, u: string, s: string, exact: bool)
    requires ProviderInv(st, u, s, exact) && n.response.None?
    requires IsAsk(n, u, s) && ServerStamped(n) ==>
      (n.payload.finalWarning <==> CountDeclines(st.notifications, u, s) >= 1)
    ensures ProviderInv(st.(notifications := st.notifications + [n]), u, s, exact)
  {
    var ns, asks := st.notifications, Asks(st, u, s);
    MineOfConcat(ns, [n], u, s, ASK_KINDS);
    CountIsDeclines(ns, u, s);
    if IsAsk(n, u, s) {
      assert [n][..0] == [];
      assert Mine([n], u, s, ASK_KINDS) == [n];
      WarnedGrows(asks, n, exact);
      DeclinesOfConcat(asks, [n]);
      UnansweredAddNone([n]);
    } else {
      NoneMine([n], u, s, ASK_KINDS);
      assert asks + [] == asks;
    }
  }

  lemma PostOneKeepsInv(st: State, r: Recipient, sender: string, p: Payload, u: string, s: string, exact: bool)
    requires ProviderInv(st, u, s, exact) && s != ""
    ensures ProviderInv(PostOne(st, r, sender, p), u, s, exact)
  {
    if r.username !in Barred(st, p) {
      var stored := StampedPayload(st, r.username, p);
      AppendOne(st, Notification(|st.notifications|, r.id, r.username, sender, stored, None, false), u, s, exact);
    }
  }

  lemma {:induction false} PostKeepsInv(st: State, rs: seq<Recipient>, sender: string, p: Payload, u: string,
                                        s: string, exact: bool)
    requires ProviderInv(st, u, s, exact) && s != ""
    ensures ProviderInv(Post(st, rs, sender, p), u, s, exact)
  {
    hide PostOne, ProviderInv;
    if rs != [] {
      PostKeepsInv(st, rs[..|rs| - 1], sender, p, u, s, exact);
      PostOneKeepsInv(Post(st, rs[..|rs| - 1], sender, p), rs[|rs| - 1], sender, p, u, s, exact);
    }
  }

  lemma {:induction false} CountsIgnore(a: seq<Notification>, b: seq<Notification>, u: string, s: string)
    requires forall n <- b :: n.response.None?
    ensures CountDeclines(a + b, u, s) == CountDeclines(a, u, s)
  {
    if b == [] {
      assert a + b == a;
    } else {
      assert (a + b)[..|a + b| - 1] == a + b[..|b| - 1];
      assert b[|b| - 1] in b;
      CountsIgnore(a, b[..|b| - 1], u, s);
    }
  }

  /** Notifications that may be appended after ns0: unanswered, with asks warned by the counts in ns0. */
  ghost predicate Appendable(ns0: seq<Notification>, b: seq<Notification>) {
    forall n <- b :: n.response.None? && (n.payload.kind in ASK_KINDS ==>
      (n.payload.finalWarning <==> CountDeclines(ns0, n.recipient, n.payload.submission) >= 1))
  }

  lemma {:induction false} AppendMany(st: State, b: seq<Notification>, u: string, s: string, exact: bool)
    requires ProviderInv(st, u, s, exact) && Appendable(st.notifications, b)
    ensures ProviderInv(st.(notifications := st.notifications + b), u, s, exact)
  {
    if b == [] {
      assert st.notifications + b == st.notifications;
    } else {
      var k := |b| - 1;
      assert b[k] in b;
      AppendMany(st, b[..k], u, s, exact);
      CountsIgnore(st.notifications, b[..k], u, s);
      var mid := st.(notifications := st.notifications + b[..k]);
      AppendOne(mid, b[k], u, s, exact);
      assert mid.notifications + [b[k]] == st.notifications + b;
    }
  }

  lemma FanOutAppendable(ns: seq<Notification>, removals: seq<Removal>, declined: Notification)
    ensures Appendable(ns, FanOut(ns, removals, declined))
  {
    hide Remaining, Willing, Requested, RemovedSet, CountRequests, CountDeclines;
    var all := FanOut(ns, removals, declined);
    forall i | 0 <= i < |all|
      ensures all[i].response.None?
      ensures all[i].payload.kind in ASK_KINDS ==>
        (all[i].payload.finalWarning <==> CountDeclines(ns, all[i].recipient, all[i].payload.submission) >= 1)
    {
    }
  }

  /** The answered row and the state right after the answer, before any removal. */
  function Answer(st: State, id: nat, response: string): State
    requires id < |st.notifications|
  {
    st.(notifications := st.notifications[id := st.notifications[id].(response := Some(response))])
  }

  lemma WarnedPrefix(asks: seq<Notification>, last: Notification, exact: bool)
    requires WarnedRightly(asks + [last], exact)
    ensures WarnedRightly(asks, exact)
    ensures ServerStamped(last) ==>
      (Declines(asks) >= 1 ==> last.payload.finalWarning) &&
      (exact && last.payload.finalWarning ==> Declines(asks) >= 1)
  {
    hide Declines;
    var all := asks + [last];
    forall i | 0 <= i < |asks| && ServerStamped(asks[i])
      ensures Declines(asks[..i]) >= 1 ==> asks[i].payload.finalWarning
      ensures exact && asks[i].payload.finalWarning ==> Declines(asks[..i]) >= 1
    {
      assert all[i] == asks[i] && all[..i] == asks[..i];
    }
    assert all[|asks|] == last && all[..|asks|] == asks;
  }

  /** After an allowed answer, only the answerer's own session can have reached two declines. */
  lemma AnswerKeepsWarnings(st: State, id: nat, response: string, u: string, s: string, exact: bool)
    requires ProviderInv(st, u, s, exact) && id < |st.notifications|
    requires IsAsk(st.notifications[id], u, s) ==> !HasNewerAsk(st.notifications, id, s) && !IsRemoved(st, u, s)
    ensures var t := Answer(st, id, response);
      && WarnedRightly(Asks(t, u, s), exact)
      && (if IsAsk(st.notifications[id], u, s)
          then Declines(Asks(t, u, s)) <= (if response == DECLINED then 2 else 1)
          else Asks(t, u, s) == Asks(st, u, s))
  {
    hide WarnedRightly, HasNewerAsk, Mine;
    var ns, n := st.notifications, st.notifications[id].(response := Some(response));
    if IsAsk(ns[id], u, s) {
      var older := Mine(ns[..id], u, s, ASK_KINDS);
      AnswerNewest(ns, id, n, u, s);
      DeclinesOfConcat(older, [ns[id]]);
      DeclinesOfConcat(older, [n]);
      assert [n][..0] == [] && [ns[id]][..0] == [];
      WarnedPrefix(older, ns[id], exact);
      WarnedGrows(older, n, exact);
    } else {
      AnswerElsewhere(ns, id, n, u, s, ASK_KINDS);
    }
  }

  lemma RemovalGrows(removals: seq<Removal>, r: Removal, s: string)
    ensures RemovedSet(removals + [r], s) == RemovedSet(removals, s) + (if r.submission == s then {r.username} else {})
  {
  }

  lemma RespondKeepsInv(st: State, id: nat, username: string, response: string, reason: string, u: string, s: string,
                        exact: bool)
    requires ProviderInv(st, u, s, exact) && s != ""
    ensures ProviderInv(Respond(st, id, username, response, reason).0, u, s, exact)
  {
    hide FanOut, HasNewerAsk, WarnedRightly;
    var (t, reply) := Respond(st, id, username, response, reason);
    if reply.Answered? {
      var n := st.notifications[id];
      var mid := Answer(st, id, response);
      var s0 := n.payload.submission;
      var removals := mid.removals + [Removal(s0, username, reason)];
      CountIsDeclines(mid.notifications, username, s0);
      AnswerKeepsWarnings(st, id, response, u, s, exact);
      RemovalGrows(mid.removals, Removal(s0, username, reason), s);
      if reply.removed {
        var between := State(mid.notifications, removals);
        assert Asks(between, u, s) == Asks(mid, u, s);
        FanOutAppendable(mid.notifications, removals, mid.notifications[id]);
        AppendMany(between, FanOut(mid.notifications, removals, mid.notifications[id]), u, s, exact);
      }
    }
  }

  // -- answers written by the other handlers

  /** b is a with some responses rewritten, none of them to a decline. */
  ghost predicate Lowered(a: seq<Notification>, b: seq<Notification>) {
    && |a| == |b|
    && forall i :: 0 <= i < |a| ==>
      b[i] == a[i].(response := b[i].response) && (b[i].response == Some(DECLINED) ==> a[i].response == Some(DECLINED))
  }

  lemma {:induction false} MineLowered(a: seq<Notification>, b: seq<Notification>, u: string, s: string,
                                       kinds: set<string>)
    requires Lowered(a, b)
    ensures Lowered(Mine(a, u, s, kinds), Mine(b, u, s, kinds))
  {
    if a != [] {
      MineLowered(a[..|a| - 1], b[..|b| - 1], u, s, kinds);
    }
  }

  lemma {:induction false} DeclinesLowered(a: seq<Notification>, b: seq<Notification>)
    requires Lowered(a, b)
    ensures Declines(b) <= Declines(a)
  {
    if a != [] {
      DeclinesLowered(a[..|a| - 1], b[..|b| - 1]);
    }
  }

  lemma LoweredKeepsInv(st: State, t: State, u: string, s: string)
    requires ProviderInv(st, u, s, false) && Lowered(st.notifications, t.notifications) && t.removals == st.removals
    ensures ProviderInv(t, u, s, false)
  {
    hide Declines;
    var a, b := Asks(st, u, s), Asks(t, u, s);
    MineLowered(st.notifications, t.notifications, u, s, ASK_KINDS);
    DeclinesLowered(a, b);
    forall i | 0 <= i < |b| && ServerStamped(b[i]) && Declines(b[..i]) >= 1 ensures b[i].payload.finalWarning {
      DeclinesLowered(a[..i], b[..i]);
    }
  }

  lemma OthersLower(st: State, op: Op)
    requires op.AnswerByIdOp? || op.SupersedeOp?
    ensures Lowered(st.notifications, Apply(st, op).notifications) && Apply(st, op).removals == st.removals
  {
  }

  lemma {:induction false} SameMine(a: seq<Notification>, b: seq<Notification>, u: string, s: string,
                                    kinds: set<string>)
    requires Lowered(a, b) && forall i :: 0 <= i < |a| && Matches(a[i], u, s, kinds) ==> a[i] == b[i]
    ensures Mine(b, u, s, kinds) == Mine(a, u, s, kinds)
  {
    if a != [] {
      SameMine(a[..|a| - 1], b[..|b| - 1], u, s, kinds);
    }
  }

  /** What they rewrite is addressed to a provider_id or asks for a signature. */
  lemma OthersTouch(st: State, op: Op, u: string, s: string, kinds: set<string>)
    requires (op.AnswerByIdOp? || op.SupersedeOp?) && OutOfReach(u)
    requires forall n <- st.notifications :: Matches(n, u, s, kinds) ==> RehashProof(n)
    ensures Mine(Apply(st, op).notifications, u, s, kinds) == Mine(st.notifications, u, s, kinds)
  {
    hide ProviderIdForUsername;
    OthersLower(st, op);
    var a, b := st.notifications, Apply(st, op).notifications;
    forall i | 0 <= i < |a| && Matches(a[i], u, s, kinds) ensures a[i] == b[i] {
      assert a[i] in a;
    }
    SameMine(a, b, u, s, kinds);
  }

  lemma ApplyKeepsProvider(st: State, op: Op, u: string, s: string, exact: bool)
    requires ProviderInv(st, u, s, exact) && s != ""
    requires exact ==> OutOfReach(u) && PlainAsks(st.notifications, u, s)
    ensures ProviderInv(Apply(st, op), u, s, exact)
  {
    hide Post, Respond, Mine, WarnedRightly, AnswerById, SupersedeSigns, OutOfReach;
    match op
    case PostOp(rs, sender, p) => PostKeepsInv(st, rs, sender, p, u, s, exact);
    case RespondOp(id, username, response, reason) => RespondKeepsInv(st, id, username, response, reason, u, s, exact);
    case _ =>
      OthersLower(st, op);
      if exact {
        OthersTouch(st, op, u, s, ASK_KINDS);
      } else {
        LoweredKeepsInv(st, Apply(st, op), u, s);
      }
  }

  lemma {:induction false} PostKeepsPlain(st: State, rs: seq<Recipient>, sender: string, p: Payload, u: string,
                                          s: string)
    requires PlainAsks(st.notifications, u, s)
    requires p.submission == s && p.kind in ASK_KINDS && Names(rs, u) ==> p.signs.None?
    ensures PlainAsks(Post(st, rs, sender, p).notifications, u, s)
  {
    if rs != [] {
      assert rs == rs[..|rs| - 1] + [rs[|rs| - 1]];
      PostKeepsPlain(st, rs[..|rs| - 1], sender, p, u, s);
    }
  }

  lemma FanOutPlain(ns: seq<Notification>, removals: seq<Removal>, declined: Notification)
    ensures forall n <- FanOut(ns, removals, declined) :: n.payload.signs.None?
  {
    hide Remaining, Willing, Requested, RemovedSet, CountRequests, CountDeclines;
    var all := FanOut(ns, removals, declined);
    forall i | 0 <= i < |all| ensures all[i].payload.signs.None? {
    }
  }

  lemma RespondKeepsPlain(st: State, id: nat, username: string, response: string, reason: string, u: string, s: string)
    requires PlainAsks(st.notifications, u, s)
    ensures PlainAsks(Respond(st, id, username, response, reason).0.notifications, u, s)
  {
    hide FanOut, IsRemoved, HasNewerAsk, CountDeclines;
    if id < |st.notifications| {
      var mid := Answer(st, id, response);
      assert st.notifications[id] in st.notifications;
      assert PlainAsks(mid.notifications, u, s);
      var n := mid.notifications[id];
      FanOutPlain(mid.notifications, mid.removals + [Removal(n.payload.submission, n.recipient, reason)], n);
    }
  }

  lemma ApplyKeepsPlain(st: State, op: Op, u: string, s: string)
    requires PlainAsks(st.notifications, u, s) && PlainPost(op, u, s)
    ensures PlainAsks(Apply(st, op).notifications, u, s)
  {
    hide Post, Respond;
    match op
    case PostOp(rs, sender, p) => PostKeepsPlain(st, rs, sender, p, u, s);
    case RespondOp(id, username, response, reason) => RespondKeepsPlain(st, id, username, response, reason, u, s);
    case _ =>
      OthersLower(st, op);
      var a, b := st.notifications, Apply(st, op).notifications;
      forall i | 0 <= i < |b| && IsAsk(b[i], u, s) ensures b[i].payload.signs.None? {
        assert a[i] in a && b[i] == a[i].(response := b[i].response);
      }
  }

  lemma EmptyInv()
    ensures Inv(EMPTY) && forall u, s :: ProviderInv(EMPTY, u, s, true)
  {
  }

  /** After every run, with every writer of answers, the warnings and counts are safe for everyone. */
  lemma {:induction false} RunsKeepInv(ops: seq<Op>)
    ensures Inv(Run(EMPTY, ops))
  {
    if ops == [] {
      EmptyInv();
    } else {
      hide Apply, ProviderInv;
      var st := Run(EMPTY, ops[..|ops| - 1]);
      RunsKeepInv(ops[..|ops| - 1]);
      forall u, s | s != "" ensures ProviderInv(Run(EMPTY, ops), u, s, false) {
        ApplyKeepsProvider(st, ops[|ops| - 1], u, s, false);
      }
    }
  }

  /** And exact for those whom no signature or withdrawal answers for, when their asks are no requests to sign. */
  lemma {:induction false} RunsKeepExactInv(ops: seq<Op>, u: string, s: string)
    requires s != "" && OutOfReach(u) && PlainPosts(ops, u, s)
    ensures var st := Run(EMPTY, ops);
      ProviderInv(st, u, s, true) && PlainAsks(st.notifications, u, s)
  {
    hide Apply, ProviderInv, OutOfReach;
    if ops == [] {
      EmptyInv();
    } else {
      var st := Run(EMPTY, ops[..|ops| - 1]);
      RunsKeepExactInv(ops[..|ops| - 1], u, s);
      ApplyKeepsPlain(st, ops[|ops| - 1], u, s);
      ApplyKeepsProvider(st, ops[|ops| - 1], u, s, true);
    }
  }

  /** For everyone: at most two asks stand declined, and two only for the removed. */
  lemma {:induction false} DeclinesBounded(ops: seq<Op>, u: string, s: string)
    requires s != ""
    ensures var st := Run(EMPTY, ops);
      CountDeclines(st.notifications, u, s) <= (if IsRemoved(st, u, s) then 2 else 1)
  {
    hide WarnedRightly;
    RunsKeepInv(ops);
    var st := Run(EMPTY, ops);
    assert ProviderInv(st, u, s, false);
    CountIsDeclines(st.notifications, u, s);
  }

  /** The answer removes u from s. */
  ghost predicate Removes(st: State, id: nat, u: string, response: string, reason: string, s: string) {
    !IsRemoved(st, u, s) && IsRemoved(Respond(st, id, u, response, reason).0, u, s)
  }

  /** An answer removes its sender exactly when it declines their newest ask while another stands declined. */
  lemma RemovesExactly(st: State, id: nat, u: string, response: string, reason: string, s: string)
    requires ProviderInv(st, u, s, false) && s != ""
    ensures Removes(st, id, u, response, reason, s) <==>
      (&& response == DECLINED && u != "" && !IsRemoved(st, u, s)
       && id < |st.notifications| && IsAsk(st.notifications[id], u, s) && !HasNewerAsk(st.notifications, id, s)
       && st.notifications[id].response != Some(DECLINED)
       && CountDeclines(st.notifications[..id], u, s) == 1)
  {
    hide FanOut, HasNewerAsk, WarnedRightly;
    var ns := st.notifications;
    if id < |ns| {
      var n := ns[id].(response := Some(response));
      RemovalGrows(st.removals, Removal(n.payload.submission, u, reason), s);
      if IsAsk(ns[id], u, s) && !HasNewerAsk(ns, id, s) {
        var older := Mine(ns[..id], u, s, ASK_KINDS);
        AnswerNewest(ns, id, n, u, s);
        CountIsDeclines(ns[..id], u, s);
        CountIsDeclines(ns[id := n], u, s);
        DeclinesOfConcat(older, [n]);
        DeclinesOfConcat(older, [ns[id]]);
        assert [n][..0] == [] && [ns[id]][..0] == [];
      }
    }
  }

  /**
   * Main result: exactly when an answer removes its sender without a final warning: it declines
   * the newest ask, not declined before, which a client posted as an update without the warning,
   * while exactly one older ask stands declined. A server-written ask always carries it.
   */
  lemma {:induction false} UnwarnedRemovalExactly(ops: seq<Op>, id: nat, u: string, response: string, reason: string,
                                                  s: string)
    requires s != ""
    ensures var st := Run(EMPTY, ops);
      (&& id < |st.notifications| && !st.notifications[id].payload.finalWarning
       && Removes(st, id, u, response, reason, s)) <==>
      (&& response == DECLINED && u != "" && !IsRemoved(st, u, s)
       && id < |st.notifications| && IsAsk(st.notifications[id], u, s) && !HasNewerAsk(st.notifications, id, s)
       && st.notifications[id].response != Some(DECLINED)
       && CountDeclines(st.notifications[..id], u, s) == 1
       && st.notifications[id].payload.kind == UPDATE && !st.notifications[id].fanOut
       && !st.notifications[id].payload.finalWarning)
  {
    hide Removes, Respond;
    var st := Run(EMPTY, ops);
    RunsKeepInv(ops);
    assert ProviderInv(st, u, s, false);
    RemovesExactly(st, id, u, response, reason, s);
    if Removes(st, id, u, response, reason, s) {
      NewestIsWarned(st, id, u, s);
    }
  }

  /** An ask the server wrote carries the warning when an older one stands declined. */
  lemma NewestIsWarned(st: State, id: nat, u: string, s: string)
    requires ProviderInv(st, u, s, false)
    requires id < |st.notifications| && IsAsk(st.notifications[id], u, s) && !HasNewerAsk(st.notifications, id, s)
    requires CountDeclines(st.notifications[..id], u, s) >= 1
    ensures ServerStamped(st.notifications[id]) ==> st.notifications[id].payload.finalWarning
  {
    hide HasNewerAsk;
    var ns := st.notifications;
    var older := Mine(ns[..id], u, s, ASK_KINDS);
    AnswerNewest(ns, id, ns[id], u, s);
    CountIsDeclines(ns[..id], u, s);
    WarnedPrefix(older, ns[id], false);
  }

  /** In a run where no client posts an update itself, every ask is stamped by the server. */
  predicate OnlyRequestsPosted(ops: seq<Op>) {
    forall i :: 0 <= i < |ops| && ops[i].PostOp? ==> ops[i].payload.kind != UPDATE
  }

  ghost predicate AllStamped(ns: seq<Notification>) {
    forall n <- ns :: n.payload.kind in ASK_KINDS ==> ServerStamped(n)
  }

  lemma {:induction false} PostsStamped(st: State, rs: seq<Recipient>, sender: string, p: Payload)
    requires AllStamped(st.notifications) && p.kind != UPDATE
    ensures AllStamped(Post(st, rs, sender, p).notifications)
  {
    if rs != [] {
      PostsStamped(st, rs[..|rs| - 1], sender, p);
    }
  }

  lemma FanOutStamped(ns: seq<Notification>, removals: seq<Removal>, declined: Notification)
    ensures AllStamped(FanOut(ns, removals, declined))
  {
    hide Remaining, Willing, Requested, RemovedSet, CountRequests, CountDeclines;
    var all := FanOut(ns, removals, declined);
    forall i | 0 <= i < |all| ensures all[i].fanOut {
    }
  }

  lemma RespondStamped(st: State, id: nat, username: string, response: string, reason: string)
    requires AllStamped(st.notifications)
    ensures AllStamped(Respond(st, id, username, response, reason).0.notifications)
  {
    hide FanOut, IsRemoved, HasNewerAsk, CountDeclines;
    if id < |st.notifications| {
      var mid := Answer(st, id, response);
      assert st.notifications[id] in st.notifications;
      assert AllStamped(mid.notifications);
      var n := mid.notifications[id];
      FanOutStamped(mid.notifications, mid.removals + [Removal(n.payload.submission, n.recipient, reason)], n);
    }
  }

  lemma OthersStamped(st: State, op: Op)
    requires AllStamped(st.notifications) && (op.AnswerByIdOp? || op.SupersedeOp?)
    ensures AllStamped(Apply(st, op).notifications)
  {
    OthersLower(st, op);
    var a, b := st.notifications, Apply(st, op).notifications;
    forall i | 0 <= i < |b| && b[i].payload.kind in ASK_KINDS ensures ServerStamped(b[i]) {
      assert a[i] in a && b[i] == a[i].(response := b[i].response);
    }
  }

  lemma {:induction false} AsksAreStamped(ops: seq<Op>)
    requires OnlyRequestsPosted(ops)
    ensures AllStamped(Run(EMPTY, ops).notifications)
  {
    if ops != [] {
      var k := |ops| - 1;
      AsksAreStamped(ops[..k]);
      match ops[k]
      case PostOp(rs, sender, p) => PostsStamped(Run(EMPTY, ops[..k]), rs, sender, p);
      case RespondOp(id, username, response, reason) =>
        RespondStamped(Run(EMPTY, ops[..k]), id, username, response, reason);
      case _ =>
        OthersStamped(Run(EMPTY, ops[..k]), ops[k]);
    }
  }

  /** So, where clients post requests only, nobody is removed without a final warning. */
  lemma {:induction false} NobodyRemovedUnwarned(ops: seq<Op>, id: nat, u: string, response: string, reason: string,
                                                 s: string)
    requires s != "" && OnlyRequestsPosted(ops)
    requires Removes(Run(EMPTY, ops), id, u, response, reason, s)
    ensures id < |Run(EMPTY, ops).notifications| && Run(EMPTY, ops).notifications[id].payload.finalWarning
  {
    hide Removes;
    var st := Run(EMPTY, ops);
    RunsKeepInv(ops);
    assert ProviderInv(st, u, s, false);
    RemovesExactly(st, id, u, response, reason, s);
    NewestIsWarned(st, id, u, s);
    AsksAreStamped(ops);
    assert st.notifications[id] in st.notifications;
  }

  lemma PostToOne(st: State, r: Recipient, sender: string, p: Payload)
    ensures Post(st, [r], sender, p) == PostOne(st, r, sender, p)
  {
    assert [r][..0] == [];
    assert Post(st, [], sender, p) == st;
  }

  lemma FirstDecline(st: State, n: Notification, u: string, s: string)
    requires st == State([n], []) && IsAsk(n, u, s) && n.response.None? && u != "" && s != ""
    ensures Respond(st, 0, u, DECLINED, "").0 == State([n.(response := Some(DECLINED))], [])
  {
    hide FanOut;
    var d := n.(response := Some(DECLINED));
    assert st.notifications[0 := d] == [d] && [d][..0] == [];
    assert CountDeclines([], u, s) == 0 && CountDeclines([d], u, s) == 1;
  }

  /** The restriction to posted requests is needed: three steps from nothing, and nobody was warned. */
  lemma UnwarnedRemovalExample()
    ensures var update := PostOp([Recipient("7", "u")], "owner", Payload(UPDATE, "s", "", 0, false, [], [], [], None));
      var st := Run(EMPTY, [update, RespondOp(0, "u", DECLINED, ""), update]);
      && |st.notifications| == 2 && !st.notifications[1].payload.finalWarning
      && Removes(st, 1, "u", DECLINED, "", "s")
  {
    hide Removes, Respond, PostOne;
    var r, p := Recipient("7", "u"), Payload(UPDATE, "s", "", 0, false, [], [], [], None);
    var update, decline := PostOp([r], "owner", p), RespondOp(0, "u", DECLINED, "");
    var ops := [update, decline, update];
    assert [update][..0] == [] && [update, decline][..1] == [update] && ops[..2] == [update, decline];
    assert Run(EMPTY, []) == EMPTY;
    PostToOne(EMPTY, r, "owner", p);
    PostsUpdate(EMPTY, r, p);
    var n := Notification(0, "7", "u", "owner", p, None, false);
    assert Run(EMPTY, [update]) == State([n], []);
    FirstDecline(State([n], []), n, "u", "s");
    var declined := n.(response := Some(DECLINED));
    var st := State([declined], []);
    assert Run(EMPTY, [update, decline]) == st;
    PostToOne(st, r, "owner", p);
    PostsUpdate(st, r, p);
    var last := Notification(1, "7", "u", "owner", p, None, false);
    assert Run(EMPTY, ops) == State([declined, last], []);
    assert [declined, last][..1] == [declined] && [declined][..0] == [];
    assert CountDeclines([], "u", "s") == 0 && CountDeclines([declined], "u", "s") == 1;
    UnwarnedRemovalExactly(ops, 1, "u", DECLINED, "", "s");
  }

  /** With nobody removed, an update without provider lists is stored as posted. */
  lemma PostsUpdate(st: State, r: Recipient, p: Payload)
    requires st.removals == [] && p.kind == UPDATE && p.selected == [] && p.requested == [] && p.willing == []
    ensures PostOne(st, r, "owner", p) ==
      State(st.notifications + [Notification(|st.notifications|, r.id, r.username, "owner", p, None, false)], [])
  {
    assert Barred(st, p) == {};
    assert StampedPayload(st, r.username, p) == p;
  }

  // ---- what every step leaves of a row

  /** later is earlier with rows appended and some of its asks answered. */
  ghost predicate Extends(earlier: seq<Notification>, later: seq<Notification>) {
    && |earlier| <= |later|
    && forall i :: 0 <= i < |earlier| ==> later[i] == earlier[i].(response := later[i].response)
  }

  lemma {:induction false} PostExtends(st: State, rs: seq<Recipient>, sender: string, p: Payload)
    ensures var ns, ns' := st.notifications, Post(st, rs, sender, p).notifications;
      Extends(ns, ns') && forall i :: 0 <= i < |ns| ==> ns'[i] == ns[i]
  {
    if rs != [] {
      PostExtends(st, rs[..|rs| - 1], sender, p);
    }
  }

  // ---- requests are numbered

  /** Row i, if it is a request, says it is the round after those before it. */
  predicate RoundFits(ns: seq<Notification>, i: nat)
    requires i < |ns|
  {
    var n := ns[i];
    n.payload.kind == REQUEST && n.payload.submission != "" ==>
      n.payload.round == CountRequests(ns[..i], n.recipient, n.payload.submission) + 1
  }

  ghost predicate Numbered(ns: seq<Notification>) {
    forall i :: 0 <= i < |ns| ==> RoundFits(ns, i)
  }

  lemma {:induction false} AnswersDoNotCount(a: seq<Notification>, b: seq<Notification>, u: string, s: string)
    requires |a| == |b| && Extends(a, b)
    ensures CountRequests(a, u, s) == CountRequests(b, u, s)
  {
    if a != [] {
      AnswersDoNotCount(a[..|a| - 1], b[..|b| - 1], u, s);
    }
  }

  lemma NumberedExtends(a: seq<Notification>, b: seq<Notification>)
    requires Numbered(a) && Extends(a, b)
    requires forall i :: |a| <= i < |b| ==> RoundFits(b, i)
    ensures Numbered(b)
  {
    hide CountRequests;
    forall i | 0 <= i < |a| ensures RoundFits(b, i) {
      assert RoundFits(a, i) && b[i] == a[i].(response := b[i].response);
      AnswersDoNotCount(a[..i], b[..i], b[i].recipient, b[i].payload.submission);
    }
  }

  lemma {:induction false} PostNumbers(st: State, rs: seq<Recipient>, sender: string, p: Payload)
    requires Numbered(st.notifications)
    ensures Numbered(Post(st, rs, sender, p).notifications)
  {
    if rs != [] {
      var mid, t := Post(st, rs[..|rs| - 1], sender, p), Post(st, rs, sender, p);
      PostNumbers(st, rs[..|rs| - 1], sender, p);
      if t != mid {
        assert t.notifications[..|mid.notifications|] == mid.notifications;
        NumberedExtends(mid.notifications, t.notifications);
      }
    }
  }

  lemma FanOutAsksNothingNew(ns: seq<Notification>, removals: seq<Removal>, declined: Notification)
    ensures forall n <- FanOut(ns, removals, declined) :: n.payload.kind != REQUEST
  {
    hide Remaining, Willing, Requested, RemovedSet, CountRequests, CountDeclines;
  }

  lemma RespondNumbers(st: State, id: nat, username: string, response: string, reason: string)
    requires Numbered(st.notifications)
    ensures Numbered(Respond(st, id, username, response, reason).0.notifications)
  {
    hide FanOut, CountDeclines, CountRequests, IsRemoved, HasNewerAsk, Numbered;
    var ns, ns' := st.notifications, Respond(st, id, username, response, reason).0.notifications;
    if ns' != ns {
      var mid := Answer(st, id, response);
      var n := mid.notifications[id];
      FanOutAsksNothingNew(mid.notifications, mid.removals + [Removal(n.payload.submission, n.recipient, reason)], n);
      forall i | |ns| <= i < |ns'| ensures ns'[i].payload.kind != REQUEST {
        assert ns'[i] in ns'[|ns|..];
      }
      NumberedExtends(ns, ns');
    }
  }

  /** After every run, each provider's requests for a session are numbered 1, 2, 3, … in order. */
  lemma {:induction false} RequestsAreNumbered(ops: seq<Op>)
    ensures Numbered(Run(EMPTY, ops).notifications)
  {
    if ops != [] {
      var mid := Run(EMPTY, ops[..|ops| - 1]);
      RequestsAreNumbered(ops[..|ops| - 1]);
      match ops[|ops| - 1]
      case PostOp(rs, sender, p) => PostNumbers(mid, rs, sender, p);
      case RespondOp(id, username, response, reason) => RespondNumbers(mid, id, username, response, reason);
      case _ =>
        OthersLower(mid, ops[|ops| - 1]);
        NumberedExtends(mid.notifications, Apply(mid, ops[|ops| - 1]).notifications);
    }
  }

  // ---- whom a removal reaches

  lemma {:induction false} LatestIffRequested(ns: seq<Notification>, u: string, s: string)
    ensures LatestRequest(ns, u, s).Some? <==> CountRequests(ns, u, s) >= 1
  {
    if ns != [] {
      LatestIffRequested(ns[..|ns| - 1], u, s);
    }
  }

  lemma {:induction false} RequestedOnce(ns: seq<Notification>, u: string, s: string)
    ensures multiset(Requested(ns, s))[u] == if CountRequests(ns, u, s) >= 1 then 1 else 0
  {
    if ns != [] {
      RequestedOnce(ns[..|ns| - 1], u, s);
    }
  }

  lemma {:induction false} RemainingOnce(ns: seq<Notification>, names: seq<string>, removed: set<string>, s: string,
                                         u: string)
    ensures multiset(Usernames(Remaining(ns, names, removed, s)))[u]
      == if u in removed || LatestRequest(ns, u, s).None? then 0 else multiset(names)[u]
  {
    if names != [] {
      var k := |names| - 1;
      RemainingOnce(ns, names[..k], removed, s, u);
      assert names == names[..k] + [names[k]];
      var init, all := Remaining(ns, names[..k], removed, s), Remaining(ns, names, removed, s);
      if all != init {
        assert Usernames(all) == Usernames(init) + [names[k]];
      }
    }
  }

  lemma {:induction false} UpdatesReach(ns: seq<Notification>, base: nat, rs: seq<Recipient>, declined: Notification,
                                        remaining: seq<string>, willing: seq<string>, u: string)
    ensures |Mine(Updates(ns, base, rs, declined, remaining, willing), u, declined.payload.submission, ASK_KINDS)|
      == multiset(Usernames(rs))[u]
  {
    var all := Updates(ns, base, rs, declined, remaining, willing);
    if rs != [] {
      var k := |rs| - 1;
      UpdatesReach(ns, base, rs[..k], declined, remaining, willing, u);
      assert all[..k] == Updates(ns, base, rs[..k], declined, remaining, willing);
      assert Usernames(rs) == Usernames(rs[..k]) + [rs[k].username];
    }
  }

  /** A removal sends one new ask to each requested provider still in the session, and to nobody else. */
  lemma FanOutReachesTheRemaining(ns: seq<Notification>, removals: seq<Removal>, declined: Notification, u: string)
    ensures var s := declined.payload.submission;
      |Mine(FanOut(ns, removals, declined), u, s, ASK_KINDS)|
      == if CountRequests(ns, u, s) >= 1 && u !in RemovedSet(removals, s) then 1 else 0
  {
    var s := declined.payload.submission;
    var removed := RemovedSet(removals, s);
    var rs := Remaining(ns, Requested(ns, s), removed, s);
    var remaining, willing := Usernames(rs), Willing(ns, rs, s);
    var notices := Notices(|ns|, declined, remaining, willing);
    MineOfConcat(notices, Updates(ns, |ns| + 2, rs, declined, remaining, willing), u, s, ASK_KINDS);
    NoneMine(notices, u, s, ASK_KINDS);
    UpdatesReach(ns, |ns| + 2, rs, declined, remaining, willing, u);
    RemainingOnce(ns, Requested(ns, s), removed, s, u);
    LatestIffRequested(ns, u, s);
    RequestedOnce(ns, u, s);
  }
}
