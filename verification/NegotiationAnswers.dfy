/**
 * Whose answers stand, with every writer of an answer: exactly when a superseded ask is frozen, when
 * a removed provider's answers are final, and whose removal is always two standing declines.
 */
module NegotiationAnswers {
  import opened Wrappers
  import opened Text
  import opened Negotiation
  import opened NegotiationRuns

  lemma {:induction false} RunsCompose(st: State, op: Op)
    ensures Run(st, [op]) == Apply(st, op)
  {
    assert [op][..0] == [] && Run(st, []) == st;
  }

  /** op rewrites the answer on row id. */
  ghost predicate Rewrites(st: State, op: Op, id: nat)
    requires id < |st.notifications|
  {
    var ns := Run(st, [op]).notifications;
    Lowered(st.notifications, ns) && ns[id].response != st.notifications[id].response
  }

  /** Somebody who signs as recipient can change what stands on row id. */
  lemma ReachChangesAnswer(st: State, id: nat) returns (op: Op)
    requires id < |st.notifications| && !OutOfReach(st.notifications[id].recipient)
    ensures Rewrites(st, op, id)
  {
    hide ProviderIdForUsername;
    var n := st.notifications[id];
    var name :| ProviderIdForUsername(name) == n.recipient;
    op := AnswerByIdOp(id, name, if n.response == Some(ACCEPTED) then WITHDRAWN else ACCEPTED);
    RunsCompose(st, op);
    OthersLower(st, op);
  }

  /** A re-hash of the contract it asks to sign changes row id, unless it is superseded already. */
  lemma RehashChangesAnswer(st: State, id: nat) returns (op: Op)
    requires id < |st.notifications| && !RehashProof(st.notifications[id])
    ensures op == SupersedeOp(st.notifications[id].payload.signs.value)
    ensures Rewrites(st, op, id) && Run(st, [op]).notifications[id].response == Some(SUPERSEDED)
  {
    op := SupersedeOp(st.notifications[id].payload.signs.value);
    RunsCompose(st, op);
    OthersLower(st, op);
  }

  // ---- superseded asks

  lemma ApplyFreezes(st: State, op: Op, id: nat, s: string)
    requires s != "" && id < |st.notifications| && HasNewerAsk(st.notifications, id, s)
    requires var n := st.notifications[id];
      IsAsk(n, n.recipient, s) && OutOfReach(n.recipient) && RehashProof(n)
    ensures var t := Apply(st, op);
      && id < |t.notifications| && t.notifications[id] == st.notifications[id] && HasNewerAsk(t.notifications, id, s)
  {
    hide FanOut, CountDeclines, IsRemoved, ProviderIdForUsername;
    var ns, ns' := st.notifications, Apply(st, op).notifications;
    if op.PostOp? {
      PostExtends(st, op.recipients, op.sender, op.payload);
    }
    assert Extends(ns, ns') && ns'[id] == ns[id];
    var k :| id < k < |ns| && IsAsk(ns[k], ns[id].recipient, s);
    assert IsAsk(ns'[k], ns'[id].recipient, s);
  }

  lemma {:induction false} FrozenAsk(st: State, ops: seq<Op>, id: nat, s: string)
    requires s != "" && id < |st.notifications| && HasNewerAsk(st.notifications, id, s)
    requires var n := st.notifications[id];
      IsAsk(n, n.recipient, s) && OutOfReach(n.recipient) && RehashProof(n)
    ensures var ns := Run(st, ops).notifications;
      id < |ns| && ns[id] == st.notifications[id] && HasNewerAsk(ns, id, s)
  {
    hide OutOfReach, Apply;
    if ops != [] {
      FrozenAsk(st, ops[..|ops| - 1], id, s);
      ApplyFreezes(Run(st, ops[..|ops| - 1]), ops[|ops| - 1], id, s);
    }
  }

  /** Whatever follows, row id is as it is now. */
  ghost predicate Frozen(st: State, id: nat)
    requires id < |st.notifications|
  {
    forall ops :: id < |Run(st, ops).notifications| && Run(st, ops).notifications[id] == st.notifications[id]
  }

  /**
   * Main result: an ask that a newer one has replaced is frozen if and only if its recipient is
   * nobody's provider_id, and it is no request to sign or stands superseded as one.
   */
  lemma SupersededIsFrozen(st: State, id: nat, s: string)
    requires s != "" && id < |st.notifications| && HasNewerAsk(st.notifications, id, s)
    requires IsAsk(st.notifications[id], st.notifications[id].recipient, s)
    ensures var n := st.notifications[id];
      Frozen(st, id) <==> OutOfReach(n.recipient) && RehashProof(n)
  {
    hide OutOfReach, RehashProof, Apply;
    var n := st.notifications[id];
    if OutOfReach(n.recipient) && RehashProof(n) {
      forall ops ensures id < |Run(st, ops).notifications| && Run(st, ops).notifications[id] == n {
        FrozenAsk(st, ops, id, s);
      }
    } else {
      var op := SomeRewrite(st, id);
      assert Run(st, [op]).notifications[id] != n;
    }
  }

  lemma SomeRewrite(st: State, id: nat) returns (op: Op)
    requires id < |st.notifications|
    requires OutOfReach(st.notifications[id].recipient) ==> !RehashProof(st.notifications[id])
    ensures Rewrites(st, op, id)
  {
    if OutOfReach(st.notifications[id].recipient) {
      op := RehashChangesAnswer(st, id);
    } else {
      op := ReachChangesAnswer(st, id);
    }
  }

  // ---- removed providers

  lemma {:induction false} PostSkipsRemoved(st: State, rs: seq<Recipient>, sender: string, p: Payload, u: string,
                                            s: string)
    requires s != "" && IsRemoved(st, u, s)
    ensures var t := Post(st, rs, sender, p);
      Mine(t.notifications, u, s, SESSION_KINDS) == Mine(st.notifications, u, s, SESSION_KINDS)
      && t.removals == st.removals
  {
    if rs != [] {
      var k := |rs| - 1;
      PostSkipsRemoved(st, rs[..k], sender, p, u, s);
      var mid, r := Post(st, rs[..k], sender, p), rs[k];
      if r.username !in Barred(mid, p) {
        var n := Notification(|mid.notifications|, r.id, r.username, sender, StampedPayload(mid, r.username, p),
                              None, false);
        MineOfConcat(mid.notifications, [n], u, s, SESSION_KINDS);
        NoneMine([n], u, s, SESSION_KINDS);
      }
    }
  }

  lemma {:induction false} RemainingExcludes(ns: seq<Notification>, names: seq<string>, removed: set<string>, s: string)
    ensures forall r <- Remaining(ns, names, removed, s) :: r.username !in removed
  {
    if names != [] {
      RemainingExcludes(ns, names[..|names| - 1], removed, s);
    }
  }

  lemma FanOutSkipsRemoved(ns: seq<Notification>, removals: seq<Removal>, declined: Notification, u: string, s: string)
    requires u in RemovedSet(removals, s)
    ensures Mine(FanOut(ns, removals, declined), u, s, SESSION_KINDS) == []
  {
    var s0 := declined.payload.submission;
    RemainingExcludes(ns, Requested(ns, s0), RemovedSet(removals, s0), s0);
    forall n | n in FanOut(ns, removals, declined) ensures !Matches(n, u, s, SESSION_KINDS) {
      var rs := Remaining(ns, Requested(ns, s0), RemovedSet(removals, s0), s0);
      if n.payload.kind in SESSION_KINDS {
        var i :| 0 <= i < |rs| && n.recipient == rs[i].username;
        assert rs[i] in rs;
      }
    }
    NoneMine(FanOut(ns, removals, declined), u, s, SESSION_KINDS);
  }

  lemma RespondSparesRemoved(st: State, id: nat, username: string, response: string, reason: string, u: string,
                             s: string)
    requires s != "" && IsRemoved(st, u, s)
    ensures var t := Respond(st, id, username, response, reason).0;
      IsRemoved(t, u, s) && Mine(t.notifications, u, s, SESSION_KINDS) == Mine(st.notifications, u, s, SESSION_KINDS)
  {
    hide FanOut, CountDeclines, HasNewerAsk, Mine;
    var (t, reply) := Respond(st, id, username, response, reason);
    if reply.Answered? {
      var n := st.notifications[id].(response := Some(response));
      var mid := Answer(st, id, response);
      AnswerElsewhere(st.notifications, id, n, u, s, SESSION_KINDS);
      if reply.removed {
        var removal := Removal(n.payload.submission, n.recipient, reason);
        RemovalGrows(mid.removals, removal, s);
        if t != mid {
          FanOutSkipsRemoved(mid.notifications, mid.removals + [removal], n, u, s);
          MineOfConcat(mid.notifications, FanOut(mid.notifications, mid.removals + [removal], n), u, s, SESSION_KINDS);
        }
      }
    }
  }

  lemma {:induction false} MineHolds(ns: seq<Notification>, u: string, s: string, kinds: set<string>, n: Notification)
    ensures n in Mine(ns, u, s, kinds) <==> n in ns && Matches(n, u, s, kinds)
  {
    if ns != [] {
      MineHolds(ns[..|ns| - 1], u, s, kinds, n);
      assert ns == ns[..|ns| - 1] + [ns[|ns| - 1]];
    }
  }

  lemma ApplySparesRemoved(st: State, op: Op, u: string, s: string)
    requires s != "" && IsRemoved(st, u, s)
    ensures var t := Apply(st, op);
      && IsRemoved(t, u, s)
      && Lowered(Mine(st.notifications, u, s, SESSION_KINDS), Mine(t.notifications, u, s, SESSION_KINDS))
      && (OutOfReach(u) && (forall n <- Mine(st.notifications, u, s, SESSION_KINDS) :: RehashProof(n)) ==>
            Mine(t.notifications, u, s, SESSION_KINDS) == Mine(st.notifications, u, s, SESSION_KINDS))
  {
    hide Post, Respond, Mine, AnswerById, SupersedeSigns, OutOfReach;
    match op
    case PostOp(rs, sender, p) => PostSkipsRemoved(st, rs, sender, p, u, s);
    case RespondOp(id, username, response, reason) => RespondSparesRemoved(st, id, username, response, reason, u, s);
    case _ =>
      OthersLower(st, op);
      MineLowered(st.notifications, Apply(st, op).notifications, u, s, SESSION_KINDS);
      if OutOfReach(u) && forall n <- Mine(st.notifications, u, s, SESSION_KINDS) :: RehashProof(n) {
        forall n <- st.notifications | Matches(n, u, s, SESSION_KINDS) ensures RehashProof(n) {
          MineHolds(st.notifications, u, s, SESSION_KINDS, n);
        }
        OthersTouch(st, op, u, s, SESSION_KINDS);
      }
  }

  /**
   * Main result: once removed, a provider stays removed and no session notification of it reaches
   * them again: their rows are the same, and no answer of theirs becomes a decline.
   */
  lemma {:induction false} RemovalIsPermanent(st: State, ops: seq<Op>, u: string, s: string)
    requires s != "" && IsRemoved(st, u, s)
    ensures var t := Run(st, ops);
      && IsRemoved(t, u, s)
      && Lowered(Mine(st.notifications, u, s, SESSION_KINDS), Mine(t.notifications, u, s, SESSION_KINDS))
  {
    hide Apply, Mine, OutOfReach;
    if ops != [] {
      RemovalIsPermanent(st, ops[..|ops| - 1], u, s);
      ApplySparesRemoved(Run(st, ops[..|ops| - 1]), ops[|ops| - 1], u, s);
    }
  }

  lemma {:induction false} FinalAnswers(st: State, ops: seq<Op>, u: string, s: string)
    requires s != "" && IsRemoved(st, u, s) && OutOfReach(u)
    requires forall n <- Mine(st.notifications, u, s, SESSION_KINDS) :: RehashProof(n)
    ensures Mine(Run(st, ops).notifications, u, s, SESSION_KINDS) == Mine(st.notifications, u, s, SESSION_KINDS)
  {
    hide Apply, Mine, OutOfReach;
    if ops != [] {
      FinalAnswers(st, ops[..|ops| - 1], u, s);
      RemovalIsPermanent(st, ops[..|ops| - 1], u, s);
      ApplySparesRemoved(Run(st, ops[..|ops| - 1]), ops[|ops| - 1], u, s);
    }
  }

  /** Two answers to one row show in the provider's rows. */
  lemma {:induction false} MineTellsApart(a: seq<Notification>, b: seq<Notification>, id: nat, u: string, s: string,
                                          kinds: set<string>)
    requires Lowered(a, b) && id < |a| && Matches(a[id], u, s, kinds) && a[id] != b[id]
    ensures Mine(a, u, s, kinds) != Mine(b, u, s, kinds)
  {
    var n := |a| - 1;
    MineLowered(a[..n], b[..n], u, s, kinds);
    if id < n {
      MineTellsApart(a[..n], b[..n], id, u, s, kinds);
    }
    var p, q := Mine(a[..n], u, s, kinds), Mine(b[..n], u, s, kinds);
    assert b[n] == a[n].(response := b[n].response);
    assert p + [] == p && q + [] == q;
    if p != q || a[n] != b[n] {
      SnocsDiffer(p, q, a[n], b[n]);
    }
  }

  lemma SnocsDiffer<T>(p: seq<T>, q: seq<T>, x: T, y: T)
    requires |p| == |q| && (p != q || x != y)
    ensures p + [x] != q + [y]
  {
    assert (p + [x])[|p|] == x && (q + [y])[|q|] == y;
    assert (p + [x])[..|p|] == p && (q + [y])[..|q|] == q;
  }

  /** Whatever follows, u's rows for s are as they are now. */
  ghost predicate AnswersFinal(st: State, u: string, s: string) {
    forall ops :: Mine(Run(st, ops).notifications, u, s, SESSION_KINDS) == Mine(st.notifications, u, s, SESSION_KINDS)
  }

  /**
   * Main result: a removed provider's answers for the session are final if and only if they have
   * none, or they are nobody's provider_id and each of their rows is no request to sign or stands
   * superseded as one.
   */
  lemma RemovedAnswersAreFinal(st: State, u: string, s: string)
    requires s != "" && IsRemoved(st, u, s)
    ensures var mine := Mine(st.notifications, u, s, SESSION_KINDS);
      AnswersFinal(st, u, s) <==> mine == [] || (OutOfReach(u) && forall n <- mine :: RehashProof(n))
  {
    hide OutOfReach, RehashProof, Apply, Mine, IsRemoved;
    var ns := st.notifications;
    var mine := Mine(ns, u, s, SESSION_KINDS);
    if mine == [] {
      forall ops ensures Mine(Run(st, ops).notifications, u, s, SESSION_KINDS) == mine {
        RemovalIsPermanent(st, ops, u, s);
      }
    } else if OutOfReach(u) && forall n <- mine :: RehashProof(n) {
      forall ops ensures Mine(Run(st, ops).notifications, u, s, SESSION_KINDS) == mine {
        FinalAnswers(st, ops, u, s);
      }
    } else {
      var n :| n in mine && (OutOfReach(u) ==> !RehashProof(n)) by {
        assert mine[0] in mine;
      }
      MineHolds(ns, u, s, SESSION_KINDS, n);
      var id: nat :| id < |ns| && ns[id] == n;
      RowIsNotFinal(st, id, u, s);
    }
  }

  lemma RowIsNotFinal(st: State, id: nat, u: string, s: string)
    requires id < |st.notifications| && Matches(st.notifications[id], u, s, SESSION_KINDS)
    requires OutOfReach(u) ==> !RehashProof(st.notifications[id])
    ensures !AnswersFinal(st, u, s)
  {
    hide OutOfReach, RehashProof, Apply, Mine;
    var op := SomeRewrite(st, id);
    MineTellsApart(st.notifications, Run(st, [op]).notifications, id, u, s, SESSION_KINDS);
  }

  // ---- removal and two standing declines

  /** Whom a signature answers for, it answers for at any time: a standing decline is undone, removed or not. */
  lemma AnswersById(st: State, id: nat, username: string, response: string, s: string)
    requires id < |st.notifications| && response in {ACCEPTED, WITHDRAWN}
    requires IsAsk(st.notifications[id], ProviderIdForUsername(username), s)
    requires st.notifications[id].response == Some(DECLINED)
    ensures var t, u := Apply(st, AnswerByIdOp(id, username, response)), ProviderIdForUsername(username);
      && |t.notifications| == |st.notifications| && t.notifications[id].response == Some(response)
      && (IsRemoved(t, u, s) <==> IsRemoved(st, u, s))
      && CountDeclines(t.notifications, u, s) == CountDeclines(st.notifications, u, s) - 1
  {
    hide ProviderIdForUsername;
    var ns, u := st.notifications, ProviderIdForUsername(username);
    var n := ns[id].(response := Some(response));
    CountsSplit(ns, id, u, s);
    CountsSplit(ns[id := n], id, u, s);
    assert ns[id := n][..id] == ns[..id] && ns[id := n][id + 1..] == ns[id + 1..];
  }

  lemma CountsSplit(ns: seq<Notification>, id: nat, u: string, s: string)
    requires id < |ns| && IsAsk(ns[id], u, s)
    ensures CountDeclines(ns, u, s) == Declines(Mine(ns[..id], u, s, ASK_KINDS))
      + (if ns[id].response == Some(DECLINED) then 1 else 0) + Declines(Mine(ns[id + 1..], u, s, ASK_KINDS))
  {
    var a, n, b := ns[..id], ns[id], ns[id + 1..];
    assert ns == (a + [n]) + b;
    CountIsDeclines(ns, u, s);
    MineOfConcat(a + [n], b, u, s, ASK_KINDS);
    MineOfConcat(a, [n], u, s, ASK_KINDS);
    assert [n][..0] == [] && Mine([n], u, s, ASK_KINDS) == [n];
    DeclinesOfConcat(Mine(a, u, s, ASK_KINDS) + [n], Mine(b, u, s, ASK_KINDS));
    DeclinesOfConcat(Mine(a, u, s, ASK_KINDS), [n]);
  }

  /** Two requests to u for s, with signs on them, each declined in turn. */
  function TwoDeclines(u: string, s: string, signs: Option<string>): seq<Op> {
    var ask := PostOp([Recipient("7", u)], "owner", Payload(REQUEST, s, "", 0, false, [], [], [], signs));
    [ask, RespondOp(0, u, DECLINED, ""), ask, RespondOp(1, u, DECLINED, "")]
  }

  /** They remove u, and the first answer is superseded. */
  lemma TwoDeclinesRemove(u: string, s: string, signs: Option<string>)
    requires u != "" && s != ""
    ensures var st := Run(EMPTY, TwoDeclines(u, s, signs));
      && |st.notifications| >= 2 && HasNewerAsk(st.notifications, 0, s)
      && (forall i :: 0 <= i < 2 ==>
            IsAsk(st.notifications[i], u, s) && st.notifications[i].response == Some(DECLINED)
            && st.notifications[i].payload.signs == signs)
      && IsRemoved(st, u, s) && CountDeclines(st.notifications, u, s) == 2
  {
    hide FanOut, Respond;
    var p := Payload(REQUEST, s, "", 0, false, [], [], [], signs);
    var r := Recipient("7", u);
    var ask, first, second := PostOp([r], "owner", p), RespondOp(0, u, DECLINED, ""), RespondOp(1, u, DECLINED, "");
    RunsCompose(EMPTY, ask);
    assert [ask, first][..1] == [ask];
    assert [ask, first, ask][..2] == [ask, first] && [ask, first, ask, second][..3] == [ask, first, ask];
    var s1 := Run(EMPTY, [ask]);
    PostToOne(EMPTY, r, "owner", p);
    assert s1 == PostOne(EMPTY, r, "owner", p);
    var n := s1.notifications[0];
    assert s1.notifications == [n] && IsAsk(n, u, s) && n.payload.signs == signs && s1.removals == [];
    var declined := n.(response := Some(DECLINED));
    var s2 := Run(EMPTY, [ask, first]);
    FirstDecline(s1, n, u, s);
    assert s2 == State([declined], []);
    var s3 := Run(EMPTY, [ask, first, ask]);
    PostToOne(s2, r, "owner", p);
    assert s3 == PostOne(s2, r, "owner", p);
    var m := s3.notifications[1];
    assert s3.notifications == [declined, m] && IsAsk(m, u, s) && m.payload.signs == signs && s3.removals == [];
    SecondDecline(s3, declined, m, u, s);
    assert TwoDeclines(u, s, signs) == [ask, first, ask, second];
    assert Run(EMPTY, [ask, first, ask, second]) == Respond(s3, 1, u, DECLINED, "").0;
  }

  lemma SecondDecline(st: State, n: Notification, m: Notification, u: string, s: string)
    requires st == State([n, m], []) && IsAsk(n, u, s) && IsAsk(m, u, s) && u != "" && s != ""
    requires n.response == Some(DECLINED) && m.response.None?
    ensures var t := Respond(st, 1, u, DECLINED, "").0;
      && |t.notifications| >= 2 && t.notifications[0] == n && t.notifications[1] == m.(response := Some(DECLINED))
      && IsRemoved(t, u, s) && CountDeclines(t.notifications, u, s) == 2
  {
    hide FanOut;
    var d := m.(response := Some(DECLINED));
    var both := [n, d];
    assert st.notifications[1 := d] == both && both[..1] == [n] && [n][..0] == [];
    assert CountDeclines([], u, s) == 0 && CountDeclines([n], u, s) == 1 && CountDeclines(both, u, s) == 2;
    var removals := [Removal(s, u, "")];
    assert [] + removals == removals;
    RemovalGrows([], removals[0], s);
    var rows := FanOut(both, removals, d);
    FanOutAppendable(both, removals, d);
    CountsIgnore(both, rows, u, s);
    var t := Respond(st, 1, u, DECLINED, "").0;
    assert t == State(both + rows, removals);
    assert t.notifications[0] == n && t.notifications[1] == d;
  }

  /**
   * For every provider_id somebody signs under, and every session: removed by two declines, then
   * answered by a signature that names the superseded ask, one decline is left standing.
   */
  lemma SigningRewrites(username: string, s: string)
    requires s != ""
    ensures var u := ProviderIdForUsername(username);
      var ops := TwoDeclines(u, s, None) + [AnswerByIdOp(0, username, ACCEPTED)];
      var st, t := Run(EMPTY, TwoDeclines(u, s, None)), Run(EMPTY, ops);
      && |st.notifications| == |t.notifications| >= 2 && HasNewerAsk(st.notifications, 0, s)
      && st.notifications[0].response == Some(DECLINED) && t.notifications[0].response == Some(ACCEPTED)
      && IsRemoved(t, u, s) && CountDeclines(t.notifications, u, s) == 1
      && (forall v, x :: PlainPosts(ops, v, x))
  {
    hide ProviderIdForUsername, TwoDeclines, Apply;
    var u, signed := ProviderIdForUsername(username), AnswerByIdOp(0, username, ACCEPTED);
    var ops := TwoDeclines(u, s, None) + [signed];
    TwoDeclinesRemove(u, s, None);
    assert ops[..|ops| - 1] == TwoDeclines(u, s, None);
    AnswersById(Run(EMPTY, TwoDeclines(u, s, None)), 0, username, ACCEPTED, s);
    TwoDeclinesPlain(u, s);
    forall v, x ensures PlainPosts(ops, v, x) {
      forall i | 0 <= i < |ops| ensures PlainPost(ops[i], v, x) {
        assert i < |ops| - 1 ==> ops[i] == TwoDeclines(u, s, None)[i];
      }
    }
  }

  lemma TwoDeclinesPlain(u: string, s: string)
    ensures forall i, v, x :: 0 <= i < |TwoDeclines(u, s, None)| ==> PlainPost(TwoDeclines(u, s, None)[i], v, x)
  {
  }

  /**
   * And for everyone, out of reach or not, when their asks double as requests to sign: after the two
   * declines, a re-hash of the contract rewrites the superseded answer too, and fewer than two
   * declines are left standing.
   */
  lemma RehashRewrites(u: string, s: string, contractId: string)
    requires u != "" && s != ""
    ensures var before := TwoDeclines(u, s, Some(contractId));
      var st, t := Run(EMPTY, before), Run(EMPTY, before + [SupersedeOp(contractId)]);
      && |st.notifications| == |t.notifications| >= 2 && HasNewerAsk(st.notifications, 0, s)
      && st.notifications[0].response == Some(DECLINED) && t.notifications[0].response == Some(SUPERSEDED)
      && IsRemoved(t, u, s) && CountDeclines(t.notifications, u, s) < 2
  {
    hide TwoDeclines, Apply, Mine;
    var before, op := TwoDeclines(u, s, Some(contractId)), SupersedeOp(contractId);
    var st, t := Run(EMPTY, before), Run(EMPTY, before + [op]);
    TwoDeclinesRemove(u, s, Some(contractId));
    assert (before + [op])[..|before|] == before;
    assert t == Apply(st, op);
    RunsCompose(st, op);
    var _ := RehashChangesAnswer(st, 0);
    OthersLower(st, op);
    FewerDeclines(st.notifications, t.notifications, 0, u, s);
  }

  /** Rewriting one of u's declines lowers their count. */
  lemma FewerDeclines(a: seq<Notification>, b: seq<Notification>, id: nat, u: string, s: string)
    requires Lowered(a, b) && id < |a| && IsAsk(a[id], u, s)
    requires a[id].response == Some(DECLINED) && b[id].response != Some(DECLINED)
    ensures CountDeclines(b, u, s) < CountDeclines(a, u, s)
  {
    CountsSplit(a, id, u, s);
    CountsSplit(b, id, u, s);
    MineLowered(a[..id], b[..id], u, s, ASK_KINDS);
    MineLowered(a[id + 1..], b[id + 1..], u, s, ASK_KINDS);
    DeclinesLowered(Mine(a[..id], u, s, ASK_KINDS), Mine(b[..id], u, s, ASK_KINDS));
    DeclinesLowered(Mine(a[id + 1..], u, s, ASK_KINDS), Mine(b[id + 1..], u, s, ASK_KINDS));
  }

  /** u is removed from s exactly while two of their asks for it stand declined. */
  ghost predicate TwoMeansRemoved(st: State, u: string, s: string) {
    IsRemoved(st, u, s) <==> CountDeclines(st.notifications, u, s) == 2
  }

  /**
   * Main result: in all runs that post u no ask for the session doubling as a request to sign,
   * removed is exactly two standing declines, if and only if u is nobody's provider_id.
   */
  lemma RemovedIffTwoDeclines(u: string, s: string)
    requires u != "" && s != ""
    ensures (forall ops :: PlainPosts(ops, u, s) ==> TwoMeansRemoved(Run(EMPTY, ops), u, s)) <==> OutOfReach(u)
  {
    hide ProviderIdForUsername, WarnedRightly, PlainPosts;
    if OutOfReach(u) {
      hide OutOfReach;
      forall ops | PlainPosts(ops, u, s) ensures TwoMeansRemoved(Run(EMPTY, ops), u, s) {
        RunsKeepExactInv(ops, u, s);
        CountIsDeclines(Run(EMPTY, ops).notifications, u, s);
      }
    } else {
      var username :| ProviderIdForUsername(username) == u;
      SigningRewrites(username, s);
      var ops := TwoDeclines(u, s, None) + [AnswerByIdOp(0, username, ACCEPTED)];
      assert PlainPosts(ops, u, s);
      assert !TwoMeansRemoved(Run(EMPTY, ops), u, s);
    }
  }
}
