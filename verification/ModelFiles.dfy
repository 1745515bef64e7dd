/**
 * Model checkpoint names and the two directory scans that read them back
 * (internal/httpapi/model.go, internal/httpapi/fl_output.go).
 */
module ModelFiles {
  import opened Wrappers
  import opened Text

  // ---- names

  const MAX_INT := 9223372036854775807
  const MAX_SID := 200
  const MAX_NAME := 255

  predicate IsSafeChar(ch: char) {
    'a' <= ch <= 'z' || 'A' <= ch <= 'Z' || '0' <= ch <= '9' || ch == '_' || ch == '-'
  }

  /** ^[a-zA-Z0-9_-]+$ */
  predicate IsSafeId(s: string) {
    s != "" && forall k :: 0 <= k < |s| ==> IsSafeChar(s[k])
  }

  function SafeChar(ch: char): char {
    if IsSafeChar(ch) then ch else '_'
  }

  /** flSessionID: the file-level id of a raw submission id. */
  function FlSessionId(raw: string): Option<string> {
    var sid := seq(|raw|, i requires 0 <= i < |raw| => SafeChar(raw[i]));
    if |sid| > MAX_SID || !IsSafeId(sid) then None else Some(sid)
  }

  /** The name an upload's model is stored under. */
  function ModelName(sid: string, round: nat): string {
    "model_" + sid + "_round_" + Decimal(round) + ".pt"
  }

  /** ^model_(.+)_round_(\d+)\.(pt|weights)$, as a relation between a name and its groups. */
  predicate Matches(name: string, session: string, digits: string, ext: string) {
    && name == "model_" + session + "_round_" + digits + "." + ext
    && session != "" && '\n' !in session
    && digits != "" && AllDigits(digits)
    && (ext == "pt" || ext == "weights")
  }

  predicate EndsWith(s: string, suffix: string) {
    |suffix| <= |s| && s[|s| - |suffix|..] == suffix
  }

  function DropEnd(s: string, suffix: string): (r: string)
    requires EndsWith(s, suffix)
    ensures s == r + suffix
  {
    s[..|s| - |suffix|]
  }

  /** s without its longest run of digits at the end. */
  function DropDigits(s: string): (r: string)
    ensures r <= s
  {
    if s != "" && IsDigit(s[|s| - 1]) then DropDigits(s[..|s| - 1]) else s
  }

  datatype Parsed = Parsed(session: string, digits: string)

  function ParseStem(name: string, suffix: string): Option<Parsed> {
    if !EndsWith(name, suffix) || !("model_" <= name) then None
    else
      var stem := DropEnd(name, suffix);
      var front := DropDigits(stem);
      if |front| == |stem| || !EndsWith(front, "_round_") || |front| <= 13 then None
      else
        var session := front[6..|front| - 7];
        if '\n' in session then None else Some(Parsed(session, stem[|front|..]))
  }

  /** The submatches of the name, found from its end. */
  function Parse(name: string): Option<Parsed> {
    var pt := ParseStem(name, ".pt");
    if pt.Some? then pt else ParseStem(name, ".weights")
  }

  /** strconv.Atoi with its error dropped: a number too large reads as the largest int. */
  function Atoi(digits: string): nat
    requires AllDigits(digits)
  {
    if DecimalValue(digits) > MAX_INT then MAX_INT else DecimalValue(digits)
  }

  // ---- the expression and its reader

  lemma {:induction false} DropDigitsOf(front: string, digits: string)
    requires AllDigits(digits) && front != "" && !IsDigit(front[|front| - 1])
    ensures DropDigits(front + digits) == front
  {
    if digits == "" {
      assert front + digits == front;
    } else {
      var s := front + digits;
      assert s[|s| - 1] == digits[|digits| - 1];
      assert s[..|s| - 1] == front + digits[..|digits| - 1];
      DropDigitsOf(front, digits[..|digits| - 1]);
    }
  }

  lemma {:induction false} DroppedAreDigits(s: string)
    ensures AllDigits(s[|DropDigits(s)|..])
  {
    if s != "" && IsDigit(s[|s| - 1]) {
      DroppedAreDigits(s[..|s| - 1]);
      var n := |DropDigits(s)|;
      assert s[n..] == s[..|s| - 1][n..] + [s[|s| - 1]];
    }
  }

  lemma StemMatches(name: string, suffix: string, session: string, digits: string)
    requires suffix == ".pt" || suffix == ".weights"
    requires Matches(name, session, digits, suffix[1..])
    ensures ParseStem(name, suffix) == Some(Parsed(session, digits))
  {
    hide DropDigits;
    var front := "model_" + session + "_round_";
    var stem := front + digits;
    assert suffix == "." + suffix[1..];
    assert name == stem + suffix;
    assert name[|name| - |suffix|..] == suffix;
    assert DropEnd(name, suffix) == stem;
    assert front[|front| - 1] == '_';
    DropDigitsOf(front, digits);
    assert front[|front| - 7..] == "_round_";
    assert front[6..|front| - 7] == session;
  }

  lemma ParsedStem(name: string, suffix: string)
    requires suffix == ".pt" || suffix == ".weights"
    requires ParseStem(name, suffix).Some?
    ensures var p := ParseStem(name, suffix).value;
      Matches(name, p.session, p.digits, suffix[1..])
  {
    hide DropDigits;
    var p := ParseStem(name, suffix).value;
    var stem := DropEnd(name, suffix);
    var front := DropDigits(stem);
    DroppedAreDigits(stem);
    assert stem == front + p.digits;
    assert front[..6] == name[..6] == "model_";
    assert front == "model_" + p.session + "_round_";
    assert suffix == "." + suffix[1..];
  }

  /**
   * The expression splits a name in at most one way, whatever its greed, and Parse finds it:
   * the groups are found exactly when some match exists.
   */
  lemma ParseExactly(name: string, session: string, digits: string)
    ensures Parse(name) == Some(Parsed(session, digits))
      <==> Matches(name, session, digits, "pt") || Matches(name, session, digits, "weights")
  {
    hide ParseStem, Matches, EndsWith;
    assert ".pt"[1..] == "pt" && ".weights"[1..] == "weights";
    if Matches(name, session, digits, "pt") {
      StemMatches(name, ".pt", session, digits);
    } else if Matches(name, session, digits, "weights") {
      StemMatches(name, ".weights", session, digits);
      OnlyOneSuffix(name);
    }
    if Parse(name) == Some(Parsed(session, digits)) {
      if ParseStem(name, ".pt").Some? {
        ParsedStem(name, ".pt");
      } else {
        ParsedStem(name, ".weights");
      }
    }
  }

  lemma LastChar(name: string, suffix: string)
    requires EndsWith(name, suffix) && suffix != ""
    ensures name[|name| - 1] == suffix[|suffix| - 1]
  {
    assert name[|name| - |suffix|..][|suffix| - 1] == name[|name| - 1];
  }

  lemma OnlyOneSuffix(name: string)
    requires ParseStem(name, ".weights").Some?
    ensures ParseStem(name, ".pt").None?
  {
    hide DropDigits;
    LastChar(name, ".weights");
    if EndsWith(name, ".pt") {
      LastChar(name, ".pt");
    }
  }

  /** Round trip: a stored model's name reads back as the session and round it was stored for. */
  lemma NameRoundTrip(sid: string, round: nat)
    requires IsSafeId(sid) && round <= MAX_INT
    ensures Parse(ModelName(sid, round)) == Some(Parsed(sid, Decimal(round)))
    ensures Atoi(Decimal(round)) == round
  {
    hide Parse;
    var digits := Decimal(round);
    assert ModelName(sid, round) == "model_" + sid + "_round_" + digits + "." + "pt";
    assert '\n' !in sid;
    ParseExactly(ModelName(sid, round), sid, digits);
    DecimalRoundTrip(round);
  }

  /** Any raw id is usable but the empty and the over-long; safe ids are their own file-level id. */
  lemma SessionIds(raw: string)
    ensures FlSessionId(raw).Some? <==> 0 < |raw| <= MAX_SID
    ensures FlSessionId(raw).Some? ==> IsSafeId(FlSessionId(raw).value)
    ensures FlSessionId(raw) == Some(raw) <==> IsSafeId(raw) && |raw| <= MAX_SID
  {
    var sid := seq(|raw|, i requires 0 <= i < |raw| => SafeChar(raw[i]));
    if raw != "" {
      assert IsSafeId(sid);
    }
    if IsSafeId(raw) {
      assert sid == raw;
    }
  }

  function Pow10(k: nat): nat {
    if k == 0 then 1 else 10 * Pow10(k - 1)
  }

  lemma {:induction false} DecimalLength(n: nat, k: nat)
    requires k > 0 && n < Pow10(k)
    ensures |Decimal(n)| <= k
  {
    if n >= 10 {
      assert n / 10 < Pow10(k - 1);
      DecimalLength(n / 10, k - 1);
    }
  }

  /** What MAX_SID is for: every stored name fits a 255-byte file name. */
  lemma NameFits(raw: string, round: nat)
    requires FlSessionId(raw).Some? && round <= MAX_INT
    ensures |ModelName(FlSessionId(raw).value, round)| <= MAX_NAME
  {
    assert Pow10(4) == 10000;
    assert Pow10(8) == 100000000 by { assert Pow10(6) == 1000000; }
    assert Pow10(12) == 1000000000000 by { assert Pow10(10) == 10000000000; }
    assert Pow10(16) == 10000000000000000 by { assert Pow10(14) == 100000000000000; }
    assert Pow10(19) == 10000000000000000000 by { assert Pow10(18) == 1000000000000000000; }
    DecimalLength(round, 19);
  }

  // ---- directory listings

  datatype Info = Info(size: nat, modTime: int)

  /** info is None when reading the entry's metadata fails. */
  datatype Entry = Entry(name: string, isDir: bool, info: Option<Info>)

  datatype FinalModel = FinalModel(session: string, round: nat, file: string, size: nat, modTime: int)

  function Candidate(e: Entry): Option<FinalModel> {
    var p := Parse(e.name);
    if e.isDir || p.None? || e.info.None? then None
    else
      assert AllDigits(p.value.digits) by { ParseExactly(e.name, p.value.session, p.value.digits); }
      Some(FinalModel(p.value.session, Atoi(p.value.digits), e.name, e.info.value.size, e.info.value.modTime))
  }

  /** The round digits are read as: their value, or the largest int. */
  function ReadAs(digits: string): nat {
    if !AllDigits(digits) then 0
    else if DecimalValue(digits) <= 9223372036854775807 then DecimalValue(digits)
    else 9223372036854775807
  }

  /** A listed entry is a model exactly when it is a readable file whose name splits, and says what both do. */
  lemma {:induction false} CandidateExactly(e: Entry, m: FinalModel)
    ensures Candidate(e) == Some(m) <==>
      (&& !e.isDir && e.info.Some? && m.file == e.name && m.size == e.info.value.size
       && m.modTime == e.info.value.modTime
       && exists digits, ext :: Matches(e.name, m.session, digits, ext) && m.round == ReadAs(digits))
  {
    hide Parse, Matches;
    if Candidate(e) == Some(m) {
      var p := Parse(e.name).value;
      ParseExactly(e.name, p.session, p.digits);
      var ext := if Matches(e.name, p.session, p.digits, "pt") then "pt" else "weights";
      assert Matches(e.name, m.session, p.digits, ext);
      MatchedExt(e.name, m.session, p.digits, ext);
    }
    forall digits, ext | Matches(e.name, m.session, digits, ext)
      ensures Parse(e.name) == Some(Parsed(m.session, digits)) && AllDigits(digits)
    {
      MatchedExt(e.name, m.session, digits, ext);
      ParseExactly(e.name, m.session, digits);
    }
  }

  lemma MatchedExt(name: string, session: string, digits: string, ext: string)
    requires Matches(name, session, digits, ext)
    ensures (ext == "pt" || ext == "weights") && AllDigits(digits)
  {
  }

  predicate CandidateFor(e: Entry, sid: string) {
    Candidate(e).Some? && Candidate(e).value.session == sid
  }

  /** The session's final model: a readable file of the highest round, the first listed of those. */
  ghost predicate IsFinalAt(entries: seq<Entry>, sid: string, m: FinalModel, k: nat) {
    && k < |entries| && CandidateFor(entries[k], sid) && Candidate(entries[k]) == Some(m)
    && (forall j :: 0 <= j < |entries| && CandidateFor(entries[j], sid) ==>
          Candidate(entries[j]).value.round <= m.round)
    && (forall j :: 0 <= j < k && CandidateFor(entries[j], sid) ==> Candidate(entries[j]).value.round < m.round)
  }

  ghost predicate IsFinal(entries: seq<Entry>, sid: string, m: FinalModel) {
    exists k: nat | k < |entries| :: IsFinalAt(entries, sid, m, k)
  }

  ghost predicate NoModel(entries: seq<Entry>, sid: string) {
    forall e <- entries :: !CandidateFor(e, sid)
  }

  lemma FinalIsUnique(entries: seq<Entry>, sid: string, m: FinalModel, m': FinalModel)
    requires IsFinal(entries, sid, m) && IsFinal(entries, sid, m')
    ensures m == m'
  {
    var k: nat :| k < |entries| && IsFinalAt(entries, sid, m, k);
    var k': nat :| k' < |entries| && IsFinalAt(entries, sid, m', k');
    assert k == k';
  }

  lemma FinalExtends(entries: seq<Entry>, e: Entry, sid: string, m: FinalModel)
    requires IsFinal(entries, sid, m)
    requires CandidateFor(e, sid) ==> Candidate(e).value.round <= m.round
    ensures IsFinal(entries + [e], sid, m)
  {
    hide Candidate;
    var k: nat :| k < |entries| && IsFinalAt(entries, sid, m, k);
    assert IsFinalAt(entries + [e], sid, m, k);
  }

  lemma FinalReplaces(entries: seq<Entry>, e: Entry, sid: string)
    requires CandidateFor(e, sid)
    requires NoModel(entries, sid) || exists m :: IsFinal(entries, sid, m) && m.round < Candidate(e).value.round
    ensures IsFinal(entries + [e], sid, Candidate(e).value)
  {
    hide Candidate;
    var all, n := entries + [e], |entries|;
    forall j | 0 <= j < n && CandidateFor(all[j], sid)
      ensures Candidate(all[j]).value.round < Candidate(e).value.round
    {
      assert all[j] == entries[j] && entries[j] in entries;
      var m :| IsFinal(entries, sid, m) && m.round < Candidate(e).value.round;
      var k: nat :| k < |entries| && IsFinalAt(entries, sid, m, k);
    }
    assert IsFinalAt(all, sid, Candidate(e).value, n);
  }

  /** The running best of a scan: a readable file replaces the best so far only with a higher round. */
  function Best(entries: seq<Entry>, sid: string): Option<FinalModel> {
    if entries == [] then None
    else
      var best, e := Best(entries[..|entries| - 1], sid), entries[|entries| - 1];
      if CandidateFor(e, sid) && (best.None? || best.value.round < Candidate(e).value.round) then Candidate(e) else best
  }

  /** The running best is the session's final model, and there is none only without any file. */
  lemma {:induction false} BestIsFinal(entries: seq<Entry>, sid: string, m: FinalModel)
    ensures Best(entries, sid) == Some(m) <==> IsFinal(entries, sid, m)
    ensures Best(entries, sid).None? <==> NoModel(entries, sid)
  {
    hide Candidate, IsFinal;
    BestFinal(entries, sid);
    if IsFinal(entries, sid, m) {
      FinalHasCandidate(entries, sid, m);
      FinalIsUnique(entries, sid, m, Best(entries, sid).value);
    }
    if Best(entries, sid).Some? {
      FinalHasCandidate(entries, sid, Best(entries, sid).value);
    }
  }

  lemma {:induction false} BestFinal(entries: seq<Entry>, sid: string)
    ensures Best(entries, sid).Some? ==> IsFinal(entries, sid, Best(entries, sid).value)
    ensures Best(entries, sid).None? ==> NoModel(entries, sid)
  {
    hide Candidate, IsFinal;
    if entries != [] {
      var init, e := entries[..|entries| - 1], entries[|entries| - 1];
      BestFinal(init, sid);
      assert entries == init + [e];
      if Best(entries, sid) == Best(init, sid) {
        if Best(init, sid).Some? {
          FinalExtends(init, e, sid, Best(init, sid).value);
        }
      } else {
        FinalReplaces(init, e, sid);
      }
    }
  }

  lemma FinalHasCandidate(entries: seq<Entry>, sid: string, m: FinalModel)
    requires IsFinal(entries, sid, m)
    ensures !NoModel(entries, sid) && m.session == sid
  {
    var k: nat :| k < |entries| && IsFinalAt(entries, sid, m, k);
    assert entries[k] in entries;
  }

  /** flSessionModel: one scan for one session. */
  method FlSessionModel(entries: seq<Entry>, sid: string) returns (best: Option<FinalModel>)
    ensures best == Best(entries, sid)
  {
    hide Parse;
    best := None;
    for i := 0 to |entries|
      invariant best == Best(entries[..i], sid)
    {
      var e := entries[i];
      assert entries[..i + 1][..i] == entries[..i];
      var m := if e.isDir then None else Parse(e.name);
      if m.None? || m.value.session != sid {
        continue;
      }
      ParseExactly(e.name, m.value.session, m.value.digits);
      var round := Atoi(m.value.digits);
      if best.Some? && best.value.round >= round {
        continue;
      }
      if e.info.None? {
        continue;
      }
      best := Some(FinalModel(sid, round, e.name, e.info.value.size, e.info.value.modTime));
    }
    assert entries[..|entries|] == entries;
  }

  predicate NewestFirst(ms: seq<FinalModel>) {
    forall i, k :: 0 <= i < k < |ms| ==> ms[i].modTime >= ms[k].modTime
  }

  /** Sorted insertion: the place of m is before the first older model. */
  function Insert(ms: seq<FinalModel>, m: FinalModel): seq<FinalModel> {
    if ms == [] then [m]
    else if m.modTime > ms[0].modTime then [m] + ms
    else [ms[0]] + Insert(ms[1..], m)
  }

  predicate SessionsApart(ms: seq<FinalModel>) {
    forall i, k :: 0 <= i < k < |ms| ==> ms[i].session != ms[k].session
  }

  lemma {:induction false} InsertHolds(ms: seq<FinalModel>, m: FinalModel, x: FinalModel)
    ensures x in Insert(ms, m) <==> x in ms || x == m
  {
    if ms != [] && m.modTime <= ms[0].modTime {
      InsertHolds(ms[1..], m, x);
      assert ms == [ms[0]] + ms[1..];
    }
  }

  lemma {:induction false} InsertSorts(ms: seq<FinalModel>, m: FinalModel)
    requires NewestFirst(ms) && SessionsApart(ms) && forall x <- ms :: x.session != m.session
    ensures NewestFirst(Insert(ms, m)) && SessionsApart(Insert(ms, m))
  {
    if ms != [] && m.modTime <= ms[0].modTime {
      var rest := Insert(ms[1..], m);
      InsertSorts(ms[1..], m);
      forall i | 0 <= i < |rest| ensures rest[i].modTime <= ms[0].modTime && rest[i].session != ms[0].session {
        InsertHolds(ms[1..], m, rest[i]);
        assert rest[i] in rest;
        if rest[i] != m {
          var k :| 0 <= k < |ms[1..]| && ms[1..][k] == rest[i];
          assert ms[k + 1] == rest[i];
        }
      }
    }
  }

  /** What the list promises: one final model per session that has one, newest first. */
  ghost predicate IsFinalList(entries: seq<Entry>, out: seq<FinalModel>) {
    && (forall m :: m in out <==> IsFinal(entries, m.session, m))
    && SessionsApart(out)
    && NewestFirst(out)
  }

  ghost predicate IsBestMap(entries: seq<Entry>, best: map<string, FinalModel>) {
    forall sid: string :: Best(entries, sid) == if sid in best then Some(best[sid]) else None
  }

  /** The scan of listFinalModels: the best file so far of every session at once. */
  method ScanSessions(entries: seq<Entry>) returns (best: map<string, FinalModel>)
    ensures IsBestMap(entries, best)
  {
    hide Parse;
    best := map[];
    for i := 0 to |entries|
      invariant IsBestMap(entries[..i], best)
    {
      var e := entries[i];
      assert entries[..i + 1][..i] == entries[..i];
      var m := if e.isDir then None else Parse(e.name);
      if m.None? {
        continue;
      }
      ParseExactly(e.name, m.value.session, m.value.digits);
      var session, round := m.value.session, Atoi(m.value.digits);
      if session in best && best[session].round >= round {
        continue;
      }
      if e.info.None? {
        continue;
      }
      best := best[session := FinalModel(session, round, e.name, e.info.value.size, e.info.value.modTime)];
    }
    assert entries[..|entries|] == entries;
  }

  /** listFinalModels: one scan for all sessions, then the newest first. */
  method ListFinalModels(entries: seq<Entry>) returns (out: seq<FinalModel>)
    ensures IsFinalList(entries, out)
  {
    var best := ScanSessions(entries);
    hide IsFinal, NoModel, Insert, Best;
    forall sid | sid in best ensures best[sid].session == sid && IsFinal(entries, sid, best[sid]) {
      BestIsFinal(entries, sid, best[sid]);
      FinalHasCandidate(entries, sid, best[sid]);
    }
    out := [];
    var left := best.Keys;
    while left != {}
      invariant left <= best.Keys
      invariant NewestFirst(out)
      invariant forall m <- out :: m.session in best && m.session !in left && m == best[m.session]
      invariant forall sid <- best.Keys - left :: best[sid] in out
      invariant SessionsApart(out)
      decreases |left|
    {
      var sid :| sid in left;
      InsertSorts(out, best[sid]);
      forall x ensures x in Insert(out, best[sid]) <==> x in out || x == best[sid] {
        InsertHolds(out, best[sid], x);
      }
      out := Insert(out, best[sid]);
      left := left - {sid};
    }
    forall m ensures m in out <==> IsFinal(entries, m.session, m) {
      BestIsFinal(entries, m.session, m);
    }
  }

  /** Main result: for every session the two scans name the same file and round, or both none. */
  lemma ScansAgree(entries: seq<Entry>, sid: string, out: seq<FinalModel>)
    requires IsFinalList(entries, out)
    ensures forall m :: Best(entries, sid) == Some(m) <==> m in out && m.session == sid
  {
    forall m ensures Best(entries, sid) == Some(m) <==> m in out && m.session == sid {
      BestIsFinal(entries, sid, m);
      if Best(entries, sid) == Some(m) {
        FinalHasCandidate(entries, sid, m);
      }
    }
  }

  // ---- storing an upload

  /** The listing of a directory without one name. */
  function Others(entries: seq<Entry>, name: string): seq<Entry> {
    if entries == [] then []
    else
      Others(entries[..|entries| - 1], name) +
      (if entries[|entries| - 1].name == name then [] else [entries[|entries| - 1]])
  }

  lemma {:induction false} BestIgnores(entries: seq<Entry>, name: string, sid: string)
    requires Parse(name).None? || Parse(name).value.session != sid
    ensures Best(Others(entries, name), sid) == Best(entries, sid)
  {
    hide Parse;
    if entries != [] {
      var k := |entries| - 1;
      BestIgnores(entries[..k], name, sid);
      var rest := Others(entries[..k], name);
      assert (rest + [entries[k]])[..|rest|] == rest;
      assert rest + [] == rest;
    }
  }

  /**
   * Storing a session's model replaces or adds one name in the listing, and no other session's
   * final model changes, whatever its id looks like.
   */
  lemma StoringIsLocal(before: seq<Entry>, after: seq<Entry>, sid: string, round: nat, other: string)
    requires IsSafeId(sid) && round <= MAX_INT && other != sid
    requires Others(before, ModelName(sid, round)) == Others(after, ModelName(sid, round))
    ensures Best(before, other) == Best(after, other)
  {
    hide Parse;
    NameRoundTrip(sid, round);
    BestIgnores(before, ModelName(sid, round), other);
    BestIgnores(after, ModelName(sid, round), other);
  }

  lemma {:induction false} OthersHold(entries: seq<Entry>, name: string, e: Entry)
    ensures e in Others(entries, name) <==> e in entries && e.name != name
  {
    if entries != [] {
      OthersHold(entries[..|entries| - 1], name, e);
      assert entries == entries[..|entries| - 1] + [entries[|entries| - 1]];
    }
  }

  /** A stored model is served as soon as its round is above every round listed before. */
  lemma StoredIsServed(before: seq<Entry>, after: seq<Entry>, sid: string, round: nat, info: Info)
    requires IsSafeId(sid) && round <= MAX_INT
    requires Others(before, ModelName(sid, round)) == Others(after, ModelName(sid, round))
    requires Entry(ModelName(sid, round), false, Some(info)) in after
    requires forall e <- after :: e.name == ModelName(sid, round) ==>
      e == Entry(ModelName(sid, round), false, Some(info))
    requires forall e <- before :: CandidateFor(e, sid) ==> Candidate(e).value.round < round
    ensures Best(after, sid) == Some(FinalModel(sid, round, ModelName(sid, round), info.size, info.modTime))
  {
    hide Parse, ModelName, Best;
    var name := ModelName(sid, round);
    var stored := Entry(name, false, Some(info));
    NameRoundTrip(sid, round);
    var m := FinalModel(sid, round, name, info.size, info.modTime);
    assert Candidate(stored) == Some(m);
    var k := First(after, stored);
    forall j | 0 <= j < |after| && CandidateFor(after[j], sid) && after[j] != stored
      ensures Candidate(after[j]).value.round < round
    {
      assert after[j] in after;
      OthersHold(after, name, after[j]);
      OthersHold(before, name, after[j]);
    }
    assert IsFinalAt(after, sid, m, k);
    BestIsFinal(after, sid, m);
  }

  ghost function First(entries: seq<Entry>, e: Entry): (k: nat)
    requires e in entries
    ensures k < |entries| && entries[k] == e && e !in entries[..k]
  {
    if entries[0] == e then 0 else
      assert entries == [entries[0]] + entries[1..];
      var k := First(entries[1..], e);
      assert entries[..k + 1] == [entries[0]] + entries[1..][..k];
      k + 1
  }
}
