/**
 * FL participation negotiation (internal/httpapi/fl_notifications.go,
 * internal/httpapi/fl_negotiation.go, internal/db/fl_notifications.go): asks,
 * answers, the decline count and removal from a session.
 */
module Negotiation {
  import opened Wrappers
  import opened Text

  const REQUEST := "participation_request"
  const UPDATE := "participation_update"
  const ROSTER := "final_roster"
  const ASK_KINDS := {REQUEST, UPDATE}
  const SESSION_KINDS := {REQUEST, UPDATE, ROSTER}

  const ACCEPTED := "accepted"
  const DECLINED := "declined"
  const WITHDRAWN := "withdrawn"
  const SUPERSEDED := "superseded"

  datatype Payload = Payload(
    kind: string,
    submission: string,
    ownerId: string,
    round: int,
    finalWarning: bool,
    selected: seq<string>,   // usernames in the payload's provider lists
    requested: seq<string>,
    willing: seq<string>,
    signs: Option<string>)   // the contract_id of a payload of type CONTRACT_SIGN

  /** One notifications row; fanOut tells the rows a removal wrote from the rows a client posted. */
  datatype Notification = Notification(
    id: nat,
    recipientId: string,
    recipient: string,
    sender: string,
    payload: Payload,
    response: Option<string>,
    fanOut: bool)

  datatype Removal = Removal(submission: string, username: string, reason: string)

  datatype Recipient = Recipient(id: string, username: string)

  datatype State = State(notifications: seq<Notification>, removals: seq<Removal>)

  // ---- queries

  predicate IsAsk(n: Notification, username: string, submission: string) {
    n.recipient == username && n.payload.submission == submission && n.payload.kind in ASK_KINDS
  }

  predicate IsRequest(n: Notification, username: string, submission: string) {
    n.recipient == username && n.payload.submission == submission && n.payload.kind == REQUEST
  }

  function CountRequests(ns: seq<Notification>, username: string, submission: string): nat {
    if ns == [] then 0
    else
      CountRequests(ns[..|ns| - 1], username, submission) +
      (if IsRequest(ns[|ns| - 1], username, submission) then 1 else 0)
  }

  function CountDeclines(ns: seq<Notification>, username: string, submission: string): nat {
    if ns == [] then 0
    else
      CountDeclines(ns[..|ns| - 1], username, submission) +
      (if IsAsk(ns[|ns| - 1], username, submission) && ns[|ns| - 1].response == Some(DECLINED) then 1 else 0)
  }

  predicate HasNewerAsk(ns: seq<Notification>, id: nat, submission: string)
    requires id < |ns|
  {
    exists k :: id < k < |ns| && IsAsk(ns[k], ns[id].recipient, submission)
  }

  function RemovedSet(removals: seq<Removal>, submission: string): set<string> {
    set r | r in removals && r.submission == submission :: r.username
  }

  predicate IsRemoved(st: State, username: string, submission: string) {
    username in RemovedSet(st.removals, submission)
  }

  /** username's most recent participation_request for submission. */
  function LatestRequest(ns: seq<Notification>, username: string, submission: string): Option<Notification> {
    if ns == [] then None
    else if IsRequest(ns[|ns| - 1], username, submission) then Some(ns[|ns| - 1])
    else LatestRequest(ns[..|ns| - 1], username, submission)
  }

  /** Everyone with a participation_request for submission, each once. */
  function Requested(ns: seq<Notification>, submission: string): seq<string> {
    if ns == [] then []
    else
      var init, n := Requested(ns[..|ns| - 1], submission), ns[|ns| - 1];
      if n.payload.kind == REQUEST && n.payload.submission == submission && n.recipient !in init
      then init + [n.recipient] else init
  }

  // ---- POST /notifications

  function Without(list: seq<string>, removed: set<string>): seq<string> {
    if list == [] then []
    else Without(list[..|list| - 1], removed) + (if list[|list| - 1] in removed then [] else [list[|list| - 1]])
  }

  function WithoutRemoved(p: Payload, removed: set<string>): Payload {
    p.(selected := Without(p.selected, removed),
       requested := Without(p.requested, removed),
       willing := Without(p.willing, removed))
  }

  /** The removed providers a posted payload must not reach: those of its session, for session-scoped kinds. */
  function Barred(st: State, p: Payload): set<string> {
    if p.submission != "" && p.kind in SESSION_KINDS then RemovedSet(st.removals, p.submission) else {}
  }

  /** The payload as stored for one recipient: no removed provider shown, and a request stamped with its round. */
  function StampedPayload(st: State, username: string, p: Payload): Payload {
    var q := WithoutRemoved(p, Barred(st, p));
    if p.kind == REQUEST && p.submission != ""
    then q.(round := CountRequests(st.notifications, username, p.submission) + 1,
            finalWarning := CountDeclines(st.notifications, username, p.submission) >= 1)
    else q
  }

  function PostOne(st: State, r: Recipient, sender: string, p: Payload): State {
    if r.username in Barred(st, p) then st
    else
      st.(notifications := st.notifications +
        [Notification(|st.notifications|, r.id, r.username, sender, StampedPayload(st, r.username, p), None, false)])
  }

  function Post(st: State, rs: seq<Recipient>, sender: string, p: Payload): State {
    if rs == [] then st else PostOne(Post(st, rs[..|rs| - 1], sender, p), rs[|rs| - 1], sender, p)
  }

  function Skipped(st: State, rs: seq<Recipient>, p: Payload): seq<string> {
    if rs == [] then []
    else
      Skipped(st, rs[..|rs| - 1], p) +
      (if rs[|rs| - 1].username in Barred(st, p) then [rs[|rs| - 1].username] else [])
  }

  // ---- removal and its fan-out

  /** The requested providers not removed, with the recipient id of their latest request. */
  function Remaining(ns: seq<Notification>, names: seq<string>, removed: set<string>, submission: string):
    seq<Recipient>
  {
    if names == [] then []
    else
      var name := names[|names| - 1];
      Remaining(ns, names[..|names| - 1], removed, submission) +
      (match LatestRequest(ns, name, submission)
       case Some(n) => if name in removed then [] else [Recipient(n.recipientId, name)]
       case None => [])
  }

  /** The usernames among rs whose latest request stands accepted. */
  function Willing(ns: seq<Notification>, rs: seq<Recipient>, submission: string): seq<string> {
    if rs == [] then []
    else
      var r := rs[|rs| - 1];
      Willing(ns, rs[..|rs| - 1], submission) +
      (match LatestRequest(ns, r.username, submission)
       case Some(n) => if n.response == Some(ACCEPTED) then [r.username] else []
       case None => [])
  }

  function Usernames(rs: seq<Recipient>): (r: seq<string>)
    ensures |r| == |rs|
  {
    seq(|rs|, i requires 0 <= i < |rs| => rs[i].username)
  }

  /** The owner's and the removed provider's notices. */
  function Notices(base: nat, declined: Notification, remaining: seq<string>, willing: seq<string>): seq<Notification> {
    var p := declined.payload;
    [Notification(base, if p.ownerId == "" then declined.sender else p.ownerId, declined.sender, declined.recipient,
                  Payload("provider_removed", p.submission, "", 0, false, [], remaining, willing, None), None, true),
     Notification(base + 1, declined.recipientId, declined.recipient, declined.sender,
                  Payload("removed_from_session", p.submission, p.ownerId, 0, false, [], [], [], None), None, true)]
  }

  function UpdateFor(ns: seq<Notification>, id: nat, r: Recipient, declined: Notification,
                     remaining: seq<string>, willing: seq<string>): Notification
  {
    var p := declined.payload;
    Notification(id, r.id, r.username, declined.sender,
                 Payload(UPDATE, p.submission, p.ownerId, CountRequests(ns, r.username, p.submission),
                         CountDeclines(ns, r.username, p.submission) >= 1, [], remaining, willing, None),
                 None, true)
  }

  function Updates(ns: seq<Notification>, base: nat, rs: seq<Recipient>, declined: Notification,
                   remaining: seq<string>, willing: seq<string>): (r: seq<Notification>)
    ensures |r| == |rs|
  {
    seq(|rs|, i requires 0 <= i < |rs| => UpdateFor(ns, base + i, rs[i], declined, remaining, willing))
  }

  /** Everything a removal appends to the notifications. */
  function FanOut(ns: seq<Notification>, removals: seq<Removal>, declined: Notification): seq<Notification> {
    var s := declined.payload.submission;
    var rs := Remaining(ns, Requested(ns, s), RemovedSet(removals, s), s);
    var remaining, willing := Usernames(rs), Willing(ns, rs, s);
    Notices(|ns|, declined, remaining, willing) + Updates(ns, |ns| + 2, rs, declined, remaining, willing)
  }

  function RemoveProvider(st: State, declined: Notification, reason: string): State {
    var s := declined.payload.submission;
    if declined.recipient in RemovedSet(st.removals, s) then st
    else
      var removals := st.removals + [Removal(s, declined.recipient, reason)];
      State(st.notifications + FanOut(st.notifications, removals, declined), removals)
  }

  // ---- POST /notifications/{id}/respond

  datatype Reply = Refused(code: string) | Answered(removed: bool, signsFor: string)

  function Respond(st: State, id: nat, username: string, response: string, reason: string): (State, Reply) {
    if username == "" then (st, Refused("MISSING_USERNAME"))
    else if response != ACCEPTED && response != DECLINED then (st, Refused("INVALID_RESPONSE"))
    else if id >= |st.notifications| || st.notifications[id].recipient != username then (st, Refused("NOT_FOUND"))
    else
      var n := st.notifications[id];
      var s := n.payload.submission;
      if s != "" && n.payload.kind in SESSION_KINDS && IsRemoved(st, username, s)
      then (st, Refused("REMOVED_FROM_SESSION"))
      else if s != "" && n.payload.kind in ASK_KINDS && HasNewerAsk(st.notifications, id, s)
      then (st, Refused("SUPERSEDED"))
      else
        var n' := n.(response := Some(response));
        var answered := st.(notifications := st.notifications[id := n']);
        if response == DECLINED && s != "" && n.payload.kind in ASK_KINDS
           && CountDeclines(answered.notifications, username, s) >= 2
        then (RemoveProvider(answered, n', reason), Answered(true, ""))
        else (answered, Answered(false, if response == ACCEPTED then s else ""))
  }

  // ---- the other writers of responses

  /**
   * The answer the sign and withdraw handlers record on the notification the caller names: any row
   * addressed to the caller's provider_id, whatever its kind or standing.
   */
  function AnswerById(st: State, id: nat, username: string, response: string): State {
    if (response == ACCEPTED || response == WITHDRAWN)
       && id < |st.notifications| && st.notifications[id].recipient == ProviderIdForUsername(username)
    then st.(notifications := st.notifications[id := st.notifications[id].(response := Some(response))])
    else st
  }

  function SupersedeOne(n: Notification, contractId: string): Notification {
    if n.payload.signs == Some(contractId) && n.response != Some(SUPERSEDED)
    then n.(response := Some(SUPERSEDED)) else n
  }

  /** SupersedeContractSignRequests, after a contract is hashed again. */
  function SupersedeSigns(st: State, contractId: string): State {
    var ns := st.notifications;
    st.(notifications := seq(|ns|, i requires 0 <= i < |ns| => SupersedeOne(ns[i], contractId)))
  }
}
