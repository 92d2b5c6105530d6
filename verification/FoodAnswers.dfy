/** What the counter answers to a presented token, told from the tables alone. Times are in microseconds. */
module FoodAnswers {
  import opened Options
  import opened Text
  import opened FoodModel

  /** The name under which a method is presented. */
  function MethodName(how: ServeMethod): string {
    match how
    case QrScan => "QR_SCAN"
    case ManualToken => "MANUAL_TOKEN"
    case FlatLookup => "FLAT_LOOKUP"
  }

  /** The presented method, in any case and with blanks around it. */
  predicate Presents(rawMethod: string, how: ServeMethod) {
    Upper(Strip(rawMethod)) == MethodName(how)
  }

  predicate HasCodeFormat(code: string) {
    6 <= |code| <= 20 && forall i :: 0 <= i < |code| ==> 'A' <= code[i] <= 'Z' || '2' <= code[i] <= '9'
  }

  /** A burst of the actor at the event is less than ten minutes old. */
  predicate BurstWithinTenMinutes(audits: seq<Audit>, event: nat, actor: nat, now: int) {
    exists i :: 0 <= i < |audits| && audits[i].Guess? && audits[i].burst
             && audits[i].event == event && audits[i].actor == actor && audits[i].at > now - 600_000_000
  }

  predicate IsOpenAt(db: Db, event: nat, now: int) {
    event in db.counters && db.counters[event].isOpen && now <= db.counters[event].closesAt
  }

  /** A rejection of the actor at the event with the method in the last three minutes. */
  predicate RejectedLately(a: Audit, event: nat, actor: nat, how: ServeMethod, now: int) {
    && (a.Guess? || a.LockedOut?) && a.event == event && a.actor == actor && a.how == how
    && a.at >= now - 180_000_000
  }

  /** The places of those rejections in the log. */
  function LateRejections(audits: seq<Audit>, event: nat, actor: nat, how: ServeMethod, now: int): set<nat> {
    set i: nat | i < |audits| && RejectedLately(audits[i], event, actor, how, now)
  }

  /** The token with the code is on file at the event, at place k and nowhere else. */
  predicate OnFile(db: Db, event: nat, code: string, k: nat) {
    && k < |db.tokens| && db.tokens[k].event == event && db.tokens[k].code == code
    && forall i :: 0 <= i < |db.tokens| && db.tokens[i].event == event && db.tokens[i].code == code ==> i == k
  }

  lemma LockedIff(audits: seq<Audit>, event: nat, actor: nat, now: int)
    ensures Locked(audits, event, actor, now) <==> BurstWithinTenMinutes(audits, event, actor, now)
  {
    if BurstWithinTenMinutes(audits, event, actor, now) {
      var i :| 0 <= i < |audits| && audits[i].Guess? && audits[i].burst && audits[i].event == event
            && audits[i].actor == actor && audits[i].at > now - 600_000_000;
      assert IsBurst(audits[i], event, actor);
    }
  }

  lemma MethodIsKnownIff(rawMethod: string)
    ensures ParseMethod(rawMethod).None? <==> forall how :: !Presents(rawMethod, how)
    ensures forall how :: Presents(rawMethod, how) <==> ParseMethod(rawMethod) == Some(how)
  {
    var name := Upper(Strip(rawMethod));
    assert Presents(rawMethod, QrScan) <==> name == "QR_SCAN";
    assert Presents(rawMethod, ManualToken) <==> name == "MANUAL_TOKEN";
    assert Presents(rawMethod, FlatLookup) <==> name == "FLAT_LOOKUP";
    assert "QR_SCAN"[0] == 'Q' && "MANUAL_TOKEN"[0] == 'M' && "FLAT_LOOKUP"[0] == 'F';
  }

  /** The refusals before the token is looked up: each is given exactly in these cases. They change nothing,
      but an expired counter is closed, and a locked-out attempt is put on the log. */
  lemma FirstRefusals(db: Db, event: nat, rawCode: string, rawMethod: string, actor: nat, now: int, gate: Gate)
    ensures var (r, answer) := Verify(db, event, rawCode, rawMethod, actor, now, gate);
            var known := exists how :: Presents(rawMethod, how);
            var wellFormed := HasCodeFormat(Upper(Strip(rawCode)));
            var admitted := known && wellFormed && gate != Denied;
            && (answer == Refused(InvalidMethod) <==> !known)
            && (answer == Refused(InvalidToken) <==> known && !wellFormed)
            && (answer == Refused(NotPermitted) <==> known && wellFormed && gate == Denied)
            && (answer == Refused(CounterClosed) <==>
                  admitted && (event !in db.counters || !db.counters[event].isOpen))
            && (answer == Refused(ServiceEnded) <==>
                  admitted && event in db.counters && db.counters[event].isOpen
                  && now > db.counters[event].closesAt)
            && (answer == Refused(TooManyFailures) <==>
                  admitted && IsOpenAt(db, event, now) && BurstWithinTenMinutes(db.audits, event, actor, now))
            && (answer.Refused? && answer.why in {InvalidMethod, InvalidToken, NotPermitted, CounterClosed} ==> r == db)
            && (answer == Refused(ServiceEnded) ==>
                  r == db.(counters := db.counters[event := Counter(false, db.counters[event].closesAt)],
                           audits := db.audits + [AutoClosed(event)]))
            && (answer == Refused(TooManyFailures) ==>
                  exists how :: Presents(rawMethod, how)
                             && r == db.(audits := db.audits + [LockedOut(event, actor, how, now)]))
  {
    MethodIsKnownIff(rawMethod);
    LockedIff(db.audits, event, actor, now);
  }

  /** The call gets as far as looking up the token. */
  predicate ReachesTokens(db: Db, event: nat, rawCode: string, rawMethod: string, how: ServeMethod, actor: nat,
                          now: int, gate: Gate)
  {
    && Presents(rawMethod, how) && HasCodeFormat(Upper(Strip(rawCode))) && gate != Denied
    && IsOpenAt(db, event, now) && !BurstWithinTenMinutes(db.audits, event, actor, now)
  }

  /** A waiting token is handed out on its own code, and its row and the log say when, by whom and with which
      method; a served one is refused and stays as it is. */
  lemma TokenIsHandedOut(db: Db, event: nat, rawCode: string, rawMethod: string, how: ServeMethod, actor: nat,
                         now: int, gate: Gate, k: nat)
    requires ReachesTokens(db, event, rawCode, rawMethod, how, actor, now, gate)
    requires OnFile(db, event, Upper(Strip(rawCode)), k)
    ensures var (r, answer) := Verify(db, event, rawCode, rawMethod, actor, now, gate);
            if db.tokens[k].served.None? then
              && answer == Served(k)
              && r.tokens == db.tokens[k := db.tokens[k].(served := Some(Serving(now, how, actor)))]
              && r.audits == db.audits + [ServedToken(event, k, actor, how, now)]
            else
              && answer == Refused(TokenUsed) && r.tokens == db.tokens
              && r.audits == db.audits + [AlreadyServed(k, actor, how, now, Some(db.tokens[k].served.value.how))]
  {
    MethodIsKnownIff(rawMethod);
    LockedIff(db.audits, event, actor, now);
  }

  lemma OneMoreRow(audits: seq<Audit>, event: nat, actor: nat, how: ServeMethod, now: int)
    requires audits != []
    ensures var n := |audits| - 1;
            var before := LateRejections(audits[..n], event, actor, how, now);
            && n !in before
            && LateRejections(audits, event, actor, how, now) ==
               if RejectedLately(audits[n], event, actor, how, now) then before + {n} else before
  {
  }

  lemma {:induction false} FailuresAreLateRejections(audits: seq<Audit>, event: nat, actor: nat, how: ServeMethod,
                                                     now: int)
    ensures FailureCount(audits, event, actor, how, now - BURST_WINDOW)
         == |LateRejections(audits, event, actor, how, now)|
  {
    if audits == [] {
      assert LateRejections(audits, event, actor, how, now) == {};
    } else {
      FailuresAreLateRejections(audits[..|audits| - 1], event, actor, how, now);
      OneMoreRow(audits, event, actor, how, now);
    }
  }

  /** A code that is not on file is a guess. The guess carries a burst exactly when five rejections of the
      last three minutes were on file before it. */
  lemma UnknownCodeIsAGuess(db: Db, event: nat, rawCode: string, rawMethod: string, how: ServeMethod, actor: nat,
                            now: int, gate: Gate)
    requires ReachesTokens(db, event, rawCode, rawMethod, how, actor, now, gate)
    requires forall i :: 0 <= i < |db.tokens| ==>
               !(db.tokens[i].event == event && db.tokens[i].code == Upper(Strip(rawCode)))
    ensures var (r, answer) := Verify(db, event, rawCode, rawMethod, actor, now, gate);
            && answer == Refused(UnknownToken) && r.tokens == db.tokens
            && r.audits == db.audits +
                 [Guess(event, actor, how, now, |LateRejections(db.audits, event, actor, how, now)| >= 5)]
  {
    MethodIsKnownIff(rawMethod);
    LockedIff(db.audits, event, actor, now);
    FailuresAreLateRejections(db.audits, event, actor, how, now);
  }

  /** A lookup by flat that hands out a token hands out a waiting one of that flat, as a flat lookup. */
  lemma LookupIsRecorded(db: Db, event: nat, flat: nat, actor: nat, now: int, gate: Gate)
    requires FlatServe(db, event, flat, actor, now, gate).1.Served?
    ensures var (r, answer) := FlatServe(db, event, flat, actor, now, gate);
            && answer.token < |db.tokens| == |r.tokens|
            && r.tokens[answer.token].served == Some(Serving(now, FlatLookup, actor))
            && db.tokens[answer.token].event == event && db.tokens[answer.token].served.None?
  {
    MethodIsKnownIff("FLAT_LOOKUP");
  }

  /** A permitted lookup at an open counter hands out the flat's first waiting token, when its code is one that
      generation made and on file once. */
  lemma LookupTakesFirst(db: Db, event: nat, flat: nat, actor: nat, now: int, k: nat)
    requires IsOpenAt(db, event, now) && !BurstWithinTenMinutes(db.audits, event, actor, now)
    requires k < |db.tokens| && db.tokens[k].flat == flat && db.tokens[k].served.None?
    requires forall i :: 0 <= i < k && db.tokens[i].event == event && db.tokens[i].flat == flat ==>
               db.tokens[i].served.Some?
    requires OnFile(db, event, db.tokens[k].code, k)
    requires HasCodeFormat(db.tokens[k].code) && Upper(Strip(db.tokens[k].code)) == db.tokens[k].code
    ensures FlatServe(db, event, flat, actor, now, Permitted).1 == Served(k)
  {
    FirstWaitingIs(db.tokens, event, flat, k);
    MethodIsKnownIff("FLAT_LOOKUP");
    assert Strip("FLAT_LOOKUP") == "FLAT_LOOKUP" && Upper("FLAT_LOOKUP") == "FLAT_LOOKUP";
    TokenIsHandedOut(db, event, db.tokens[k].code, "FLAT_LOOKUP", FlatLookup, actor, now, Permitted, k);
  }

  lemma {:induction false} FirstWaitingIs(tokens: seq<Token>, event: nat, flat: nat, k: nat)
    requires k < |tokens| && IsWaiting(tokens[k], event, flat)
    requires forall i :: 0 <= i < k ==> !IsWaiting(tokens[i], event, flat)
    ensures FirstWaiting(tokens, event, flat) == Some(k)
  {
    if k < |tokens| - 1 { FirstWaitingIs(tokens[..|tokens| - 1], event, flat, k); }
  }

  /** A lookup that serves without a token adds the row that says for whom, by whom and when, and nothing else. */
  lemma FallbackIsRecorded(db: Db, event: nat, flat: nat, actor: nat, now: int, gate: Gate)
    requires FlatServe(db, event, flat, actor, now, gate).1 == FellBack
    ensures FlatServe(db, event, flat, actor, now, gate).0 ==
            db.(audits := db.audits + [ServedWithoutToken(event, flat, actor, now)])
    ensures gate != Denied && IsOpenAt(db, event, now)
    ensures forall i :: 0 <= i < |db.tokens| && db.tokens[i].event == event && db.tokens[i].flat == flat ==>
              db.tokens[i].served.Some?
  {
    assert forall i :: 0 <= i < |db.tokens| ==> !IsWaiting(db.tokens[i], event, flat);
  }

  /** A booking is refused without permission or when its counts do not add up to a plate, an opt-out or an
      opening without permission only; what is granted is on file, an opening for the minutes given. */
  lemma DeskAnswers(db: Db, event: nat, flat: nat, veg: int, jain: int, kids: int, now: int, minutes: int, gate: Gate)
    ensures AddPass(db, event, flat, veg, jain, kids, gate) ==
            if gate == Denied then (db, Refused(NotPermitted))
            else if veg + jain + kids < 1 then (db, Refused(NothingBooked))
            else (db.(passes := AddPass(db, event, flat, veg, jain, kids, gate).0.passes), Done)
    ensures AddPass(db, event, flat, veg, jain, kids, gate).1 == Done ==>
              Pass(event, flat, veg, jain, kids, true) in AddPass(db, event, flat, veg, jain, kids, gate).0.passes
    ensures OptOut(db, event, flat, gate).1 == (if gate == Denied then Refused(NotPermitted) else Done)
    ensures OptOut(db, event, flat, gate).1 == Done ==>
              Pass(event, flat, 0, 0, 0, false) in OptOut(db, event, flat, gate).0.passes
    ensures OpenCounter(db, event, now, minutes, gate) ==
            if gate == Denied then (db, Refused(NotPermitted))
            else (db.(counters := db.counters[event := Counter(true, now + minutes * 60_000_000)]), Done)
  {
    SetPassHolds(db.passes, Pass(event, flat, veg, jain, kids, true));
    SetPassHolds(db.passes, Pass(event, flat, 0, 0, 0, false));
  }

  lemma {:induction false} SetPassHolds(passes: seq<Pass>, p: Pass)
    ensures p in SetPass(passes, p)
  {
    if passes != [] && !IsPassOf(passes[0], p.event, p.flat) {
      SetPassHolds(passes[1..], p);
      assert p in [passes[0]] + SetPass(passes[1..], p);
    }
  }
}
