/**
 * The negotiation handlers as they run: loops over recipients and rows that grow the
 * notifications table as they go. Each is proved to do exactly what its specification
 * in Negotiation says.
 */
module NegotiationServer {
  import opened Wrappers
  import opened Text
  import opened Negotiation
  import Runs = NegotiationRuns
  import Steps = NegotiationSteps

  /** withoutRemovedProviders: one pass per list, keeping what is not removed. */
  method DropRemoved(list: seq<string>, removed: set<string>) returns (kept: seq<string>)
    ensures kept == Without(list, removed)
    ensures forall u :: u in kept <==> u in list && u !in removed
  {
    kept := [];
    for i := 0 to |list|
      invariant kept == Without(list[..i], removed)
      invariant forall u :: u in kept <==> u in list[..i] && u !in removed
    {
      assert list[..i + 1][..i] == list[..i];
      if list[i] in removed {
        continue;
      }
      kept := kept + [list[i]];
    }
    assert list[..|list|] == list;
  }

  lemma {:induction false} RequestsIgnore(a: seq<Notification>, b: seq<Notification>, u: string, s: string)
    requires forall n <- b :: n.payload.kind != REQUEST
    ensures CountRequests(a + b, u, s) == CountRequests(a, u, s)
  {
    if b == [] {
      assert a + b == a;
    } else {
      assert (a + b)[..|a + b| - 1] == a + b[..|b| - 1];
      assert b[|b| - 1] in b;
      RequestsIgnore(a, b[..|b| - 1], u, s);
    }
  }

  lemma {:induction false} WithoutNobody(list: seq<string>)
    ensures Without(list, {}) == list
  {
    if list != [] {
      WithoutNobody(list[..|list| - 1]);
    }
  }

  class Server {
    var notifications: seq<Notification>
    var removals: seq<Removal>

    constructor ()
      ensures Abstract() == Runs.EMPTY
    {
      notifications, removals := [], [];
    }

    ghost function Abstract(): State
      reads this
    {
      State(notifications, removals)
    }

    /** CreateNotification: one insert. */
    method Create(recipientId: string, recipient: string, sender: string, payload: Payload, fanOut: bool)
      modifies this`notifications
      ensures notifications == old(notifications) +
        [Notification(|old(notifications)|, recipientId, recipient, sender, payload, None, fanOut)]
    {
      notifications := notifications +
        [Notification(|notifications|, recipientId, recipient, sender, payload, None, fanOut)];
    }

    /** What one recipient is sent: removed providers dropped, and a request stamped. */
    method PayloadFor(payload: Payload, username: string, removed: set<string>) returns (stored: Payload)
      requires removed == Barred(Abstract(), payload)
      ensures stored == StampedPayload(Abstract(), username, payload)
    {
      stored := payload;
      if removed != {} {
        var selected := DropRemoved(payload.selected, removed);
        var requested := DropRemoved(payload.requested, removed);
        var willing := DropRemoved(payload.willing, removed);
        stored := payload.(selected := selected, requested := requested, willing := willing);
      } else {
        WithoutNobody(payload.selected);
        WithoutNobody(payload.requested);
        WithoutNobody(payload.willing);
      }
      if payload.kind == REQUEST && payload.submission != "" {
        var prior := CountRequests(notifications, username, payload.submission);
        var declines := CountDeclines(notifications, username, payload.submission);
        stored := stored.(round := prior + 1, finalWarning := declines >= 1);
      }
    }

    method PostNotifications(recipients: seq<Recipient>, sender: string, payload: Payload)
      returns (missing: bool, skipped: seq<string>)
      modifies this`notifications
      ensures missing <==> recipients == []
      ensures Abstract() == Post(old(Abstract()), recipients, sender, payload)
      ensures skipped == Skipped(old(Abstract()), recipients, payload)
    {
      missing, skipped := recipients == [], [];
      if missing {
        return;
      }
      var removed: set<string> := {};
      if payload.submission != "" && payload.kind in SESSION_KINDS {
        removed := RemovedSet(removals, payload.submission);
      }
      hide StampedPayload;
      for i := 0 to |recipients|
        invariant removals == old(removals)
        invariant Abstract() == Post(old(Abstract()), recipients[..i], sender, payload)
        invariant skipped == Skipped(old(Abstract()), recipients[..i], payload)
      {
        assert recipients[..i + 1][..i] == recipients[..i];
        var r := recipients[i];
        ghost var before := Abstract();
        assert removed == Barred(before, payload);
        if r.username in removed {
          skipped := skipped + [r.username];
          continue;
        }
        var stored := PayloadFor(payload, r.username, removed);
        Create(r.id, r.username, sender, stored, false);
      }
      assert recipients[..|recipients|] == recipients;
    }

    /** Inserts one update per remaining provider; the counts are read from the growing table. */
    method SendUpdates(declined: Notification, rs: seq<Recipient>, remaining: seq<string>, willing: seq<string>,
                       ghost ns: seq<Notification>, ghost notices: seq<Notification>)
      requires notifications == ns + notices
      requires forall n <- notices :: n.payload.kind != REQUEST && n.response.None?
      modifies this`notifications
      ensures notifications == old(notifications) + Updates(ns, |old(notifications)|, rs, declined, remaining, willing)
    {
      ghost var base := |notifications|;
      ghost var updates := Updates(ns, base, rs, declined, remaining, willing);
      for i := 0 to |rs|
        invariant notifications == old(notifications) + updates[..i]
      {
        var p, s := rs[i], declined.payload.submission;
        ghost var added := notices + updates[..i];
        assert notifications == ns + added;
        forall n <- added ensures n.payload.kind != REQUEST && n.response.None? {
        }
        RequestsIgnore(ns, added, p.username, s);
        Runs.CountsIgnore(ns, added, p.username, s);
        var round := CountRequests(notifications, p.username, s);
        var declines := CountDeclines(notifications, p.username, s);
        Create(p.id, p.username, declined.sender,
               Payload(UPDATE, s, declined.payload.ownerId, round, declines >= 1, [], remaining, willing, None), true);
        assert updates[..i + 1] == updates[..i] + [updates[i]];
      }
      assert updates[..|rs|] == updates;
    }

    /** Each one's latest request: who is still in the session, and who of them stands accepted. */
    method RemainingAndWilling(s: string, gone: set<string>) returns (rs: seq<Recipient>, willing: seq<string>)
      ensures rs == Remaining(notifications, Requested(notifications, s), gone, s)
      ensures willing == Willing(notifications, rs, s)
    {
      var names := Requested(notifications, s);
      rs, willing := [], [];
      for i := 0 to |names|
        invariant rs == Remaining(notifications, names[..i], gone, s)
        invariant willing == Willing(notifications, rs, s)
      {
        assert names[..i + 1][..i] == names[..i];
        var latest := LatestRequest(notifications, names[i], s);
        if latest.None? || names[i] in gone {
          continue;
        }
        ghost var before := rs;
        rs := rs + [Recipient(latest.value.recipientId, names[i])];
        assert rs[..|rs| - 1] == before;
        if latest.value.response == Some(ACCEPTED) {
          willing := willing + [names[i]];
        }
      }
      assert names[..|names|] == names;
    }

    method RemoveProviderFromSession(declined: Notification, reason: string) returns (removed: bool)
      modifies this
      ensures removed
      ensures Abstract() == RemoveProvider(old(Abstract()), declined, reason)
    {
      hide Remaining, Willing, Requested, Updates;
      removed := true;
      var username, s := declined.recipient, declined.payload.submission;
      if username in RemovedSet(removals, s) {
        return;
      }
      removals := removals + [Removal(s, username, reason)];
      var ns, gone := notifications, RemovedSet(removals, s);
      var rs, willing := RemainingAndWilling(s, gone);
      var remaining := Usernames(rs);
      ghost var notices := Notices(|ns|, declined, remaining, willing);
      var ownerId := declined.payload.ownerId;
      if ownerId == "" {
        ownerId := declined.sender;
      }
      Create(ownerId, declined.sender, username,
             Payload("provider_removed", s, "", 0, false, [], remaining, willing, None), true);
      Create(declined.recipientId, username, declined.sender,
             Payload("removed_from_session", s, declined.payload.ownerId, 0, false, [], [], [], None), true);
      assert notifications == ns + notices;
      SendUpdates(declined, rs, remaining, willing, ns, notices);
    }

    method RespondToNotification(id: nat, username: string, response: string, reason: string) returns (reply: Reply)
      modifies this
      ensures (Abstract(), reply) == Respond(old(Abstract()), id, username, response, reason)
      ensures reply.Answered? <==> Steps.MayAnswer(old(Abstract()), id, username, response)
      ensures reply.Answered? ==>
        && |old(notifications)| <= |notifications| && id < |old(notifications)|
        && notifications[id] == old(notifications)[id].(response := Some(response))
        && forall i :: 0 <= i < |old(notifications)| && i != id ==> notifications[i] == old(notifications)[i]
      ensures !reply.Answered? ==> Abstract() == old(Abstract())
    {
      hide FanOut, CountDeclines, Steps.MayAnswer, Steps.SecondDecline;
      Steps.AnsweredRows(Abstract(), id, username, response, reason);
      if username == "" {
        return Refused("MISSING_USERNAME");
      }
      if response != ACCEPTED && response != DECLINED {
        return Refused("INVALID_RESPONSE");
      }
      if id >= |notifications| || notifications[id].recipient != username {
        return Refused("NOT_FOUND");
      }
      var p := notifications[id].payload;
      if p.submission != "" && p.kind in SESSION_KINDS && username in RemovedSet(removals, p.submission) {
        return Refused("REMOVED_FROM_SESSION");
      }
      if p.submission != "" && p.kind in ASK_KINDS {
        var newer := NewerAsk(id, p.submission);
        if newer {
          return Refused("SUPERSEDED");
        }
      }
      var updated := notifications[id].(response := Some(response));
      notifications := notifications[id := updated];
      var secondDecline := false;
      if response == DECLINED && p.submission != "" && p.kind in ASK_KINDS {
        secondDecline := CountDeclines(notifications, username, p.submission) >= 2;
      }
      if secondDecline {
        var removedNow := RemoveProviderFromSession(updated, reason);
        return Answered(removedNow, "");
      }
      reply := Answered(false, if response == ACCEPTED then p.submission else "");
    }

    /** RespondToNotification as called after a signature or a withdrawal: no check but the recipient. */
    method AnswerAsProvider(id: nat, username: string, response: string) returns (answered: bool)
      requires response == ACCEPTED || response == WITHDRAWN
      modifies this`notifications
      ensures Abstract() == AnswerById(old(Abstract()), id, username, response)
      ensures answered <==>
        id < |old(notifications)| && old(notifications)[id].recipient == ProviderIdForUsername(username)
    {
      hide ProviderIdForUsername;
      answered := id < |notifications| && notifications[id].recipient == ProviderIdForUsername(username);
      if answered {
        notifications := notifications[id := notifications[id].(response := Some(response))];
      }
    }

    /** SupersedeContractSignRequests, row by row; returns how many rows changed. */
    method SupersedeContractSignRequests(contractId: string) returns (changed: nat)
      modifies this`notifications
      ensures Abstract() == SupersedeSigns(old(Abstract()), contractId)
      ensures changed == |set k | 0 <= k < |old(notifications)| && notifications[k] != old(notifications)[k]|
    {
      changed := 0;
      ghost var rewritten: set<int> := {};
      for i := 0 to |notifications|
        invariant |notifications| == |old(notifications)|
        invariant forall k :: 0 <= k < i ==> notifications[k] == SupersedeOne(old(notifications)[k], contractId)
        invariant forall k :: i <= k < |notifications| ==> notifications[k] == old(notifications)[k]
        invariant forall k :: k in rewritten <==> 0 <= k < i && notifications[k] != old(notifications)[k]
        invariant changed == |rewritten|
      {
        var n := notifications[i];
        if n.payload.signs == Some(contractId) && n.response != Some(SUPERSEDED) {
          notifications := notifications[i := n.(response := Some(SUPERSEDED))];
          assert notifications[i] != old(notifications)[i];
          rewritten := rewritten + {i};
          changed := changed + 1;
        }
      }
      assert rewritten == set k | 0 <= k < |old(notifications)| && notifications[k] != old(notifications)[k];
    }

    /** HasNewerParticipationAsk: the existence query as a scan of the rows after id. */
    method NewerAsk(id: nat, submission: string) returns (newer: bool)
      requires id < |notifications|
      ensures newer == HasNewerAsk(notifications, id, submission)
    {
      newer := false;
      for k := id + 1 to |notifications|
        invariant newer <==> exists m :: id < m < k && IsAsk(notifications[m], notifications[id].recipient, submission)
      {
        if IsAsk(notifications[k], notifications[id].recipient, submission) {
          newer := true;
        }
      }
    }
  }
}
