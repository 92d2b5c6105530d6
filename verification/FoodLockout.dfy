/** The lockout after repeated unknown tokens, over every run with a clock that never goes back. */
module FoodLockout {
  import opened Options
  import opened FoodModel

  function TimeOf(op: Op): Option<int> {
    match op
    case OpenOp(_, now, _, _) => Some(now)
    case VerifyOp(_, _, _, _, now, _) => Some(now)
    case FlatOp(_, _, _, now, _) => Some(now)
    case _ => None
  }

  predicate Timely(ops: seq<Op>) {
    forall i, j :: 0 <= i < j < |ops| && TimeOf(ops[i]).Some? && TimeOf(ops[j]).Some? ==>
      TimeOf(ops[i]).value <= TimeOf(ops[j]).value
  }

  /** No guess is dated after `now`. */
  predicate NotAfter(audits: seq<Audit>, now: int) {
    forall i :: 0 <= i < |audits| && audits[i].Guess? ==> audits[i].at <= now
  }

  /** What the code guarantees of the row written on top of a log. */
  predicate Lawful(before: seq<Audit>, a: Audit) {
    match a
    case Guess(event, actor, how, at, burst) =>
      && NotAfter(before, at)
      && !Locked(before, event, actor, at)
      && burst == (FailureCount(before, event, actor, how, at - BURST_WINDOW) >= BURST_THRESHOLD)
    case ServedToken(event, _, actor, _, at) => NotAfter(before, at) && !Locked(before, event, actor, at)
    case _ => true
  }

  predicate LawfulLog(audits: seq<Audit>) {
    audits == [] || (LawfulLog(audits[..|audits| - 1]) && Lawful(audits[..|audits| - 1], audits[|audits| - 1]))
  }

  lemma LawfulAppend(audits: seq<Audit>, a: Audit)
    requires LawfulLog(audits) && Lawful(audits, a)
    ensures LawfulLog(audits + [a])
  {
    assert (audits + [a])[..|audits|] == audits;
  }

  // ---------------------------------------------------------------- runs write lawful logs

  /** Each operation adds at most one row, lawfully, and dates it by its own clock reading. */
  predicate AddsLawfully(db: Db, r: Db) {
    || r.audits == db.audits
    || (|r.audits| == |db.audits| + 1
        && r.audits[..|db.audits|] == db.audits
        && Lawful(db.audits, r.audits[|db.audits|]))
  }

  lemma VerifyAddsLawfully(db: Db, event: nat, code: string, how: string, actor: nat, now: int, gate: Gate)
    requires NotAfter(db.audits, now)
    ensures var r := Verify(db, event, code, how, actor, now, gate).0;
            AddsLawfully(db, r) && NotAfter(r.audits, now)
  {
  }

  lemma ApplyAddsLawfully(db: Db, op: Op)
    requires TimeOf(op).Some? ==> NotAfter(db.audits, TimeOf(op).value)
    ensures AddsLawfully(db, Apply(db, op).0)
    ensures TimeOf(op).Some? ==> NotAfter(Apply(db, op).0.audits, TimeOf(op).value)
    ensures TimeOf(op).None? ==> forall now :: NotAfter(db.audits, now) ==> NotAfter(Apply(db, op).0.audits, now)
  {
    match op
    case VerifyOp(event, code, how, actor, now, gate) => VerifyAddsLawfully(db, event, code, how, actor, now, gate);
    case FlatOp(event, flat, actor, now, gate) =>
      var waiting := FirstWaiting(db.tokens, event, flat);
      if waiting.Some? {
        VerifyAddsLawfully(db, event, db.tokens[waiting.value].code, "FLAT_LOOKUP", actor, now,
                           if gate == Permitted then Permitted else Denied);
      }
    case _ =>
  }

  /** No step reads a clock beyond `now`. */
  predicate ReadBy(ops: seq<Op>, now: int) {
    forall k :: 0 <= k < |ops| && TimeOf(ops[k]).Some? ==> TimeOf(ops[k]).value <= now
  }

  /** A guess that is added is dated by the call that adds it. */
  predicate DatesGuess(db: Db, r: Db, now: int) {
    || r.audits == db.audits
    || (|r.audits| == |db.audits| + 1 && r.audits[..|db.audits|] == db.audits
        && (r.audits[|db.audits|].Guess? ==> r.audits[|db.audits|].at <= now))
  }

  lemma VerifyDates(db: Db, event: nat, code: string, how: string, actor: nat, now: int, gate: Gate, later: int)
    requires now <= later
    ensures DatesGuess(db, Verify(db, event, code, how, actor, now, gate).0, later)
  {
  }

  lemma ApplyDates(db: Db, op: Op, later: int)
    requires TimeOf(op).Some? ==> TimeOf(op).value <= later
    ensures DatesGuess(db, Apply(db, op).0, later)
  {
    match op
    case VerifyOp(event, code, how, actor, now, gate) => VerifyDates(db, event, code, how, actor, now, gate, later);
    case FlatOp(event, flat, actor, now, gate) =>
      var waiting := FirstWaiting(db.tokens, event, flat);
      if waiting.Some? {
        VerifyDates(db, event, db.tokens[waiting.value].code, "FLAT_LOOKUP", actor, now,
                    if gate == Permitted then Permitted else Denied, later);
      }
    case _ =>
  }

  lemma NotAfterAppend(db: Db, r: Db, now: int)
    requires NotAfter(db.audits, now) && DatesGuess(db, r, now)
    ensures NotAfter(r.audits, now)
  {
    assert forall i :: 0 <= i < |db.audits| ==> db.audits[i] == db.audits[..|db.audits|][i];
  }

  lemma {:induction false} RunsNotAfter(ops: seq<Op>, now: int)
    requires ReadBy(ops, now)
    ensures NotAfter(Run(ops).audits, now)
  {
    if ops != [] {
      var n := |ops| - 1;
      assert forall i :: 0 <= i < n ==> ops[..n][i] == ops[i];
      RunsNotAfter(ops[..n], now);
      ApplyDates(Run(ops[..n]), ops[n], now);
      NotAfterAppend(Run(ops[..n]), Run(ops), now);
    }
  }

  lemma {:induction false} RunsAreLawful(ops: seq<Op>)
    requires Timely(ops)
    ensures LawfulLog(Run(ops).audits)
    ensures forall now :: ReadBy(ops, now) ==> NotAfter(Run(ops).audits, now)
  {
    if ops != [] {
      var n := |ops| - 1;
      var db := Run(ops[..n]);
      assert forall i :: 0 <= i < n ==> ops[..n][i] == ops[i];
      RunsAreLawful(ops[..n]);
      if TimeOf(ops[n]).Some? { assert ReadBy(ops[..n], TimeOf(ops[n]).value); }
      ApplyAddsLawfully(db, ops[n]);
      LawfulStep(db, Run(ops));
    }
    forall now | ReadBy(ops, now) ensures NotAfter(Run(ops).audits, now) { RunsNotAfter(ops, now); }
  }

  lemma LawfulStep(db: Db, r: Db)
    requires LawfulLog(db.audits) && AddsLawfully(db, r)
    ensures LawfulLog(r.audits)
  {
    if r.audits != db.audits {
      LawfulAppend(db.audits, r.audits[|db.audits|]);
      assert r.audits == db.audits + [r.audits[|db.audits|]];
    }
  }

  // ---------------------------------------------------------------- the bound on guesses

  predicate IsGuess(a: Audit, event: nat, actor: nat, how: ServeMethod, lo: int, hi: int) {
    a.Guess? && a.event == event && a.actor == actor && a.how == how && lo <= a.at <= hi
  }

  /** The unknown-token guesses of one actor, event and method dated in a closed interval. */
  function Guesses(audits: seq<Audit>, event: nat, actor: nat, how: ServeMethod, lo: int, hi: int): nat {
    if audits == [] then 0
    else Guesses(audits[..|audits| - 1], event, actor, how, lo, hi) +
         (if IsGuess(audits[|audits| - 1], event, actor, how, lo, hi) then 1 else 0)
  }

  function AllGuesses(audits: seq<Audit>, event: nat, actor: nat, lo: int, hi: int): nat {
    Guesses(audits, event, actor, QrScan, lo, hi) + Guesses(audits, event, actor, ManualToken, lo, hi)
      + Guesses(audits, event, actor, FlatLookup, lo, hi)
  }

  predicate BurstIn(audits: seq<Audit>, event: nat, actor: nat, lo: int, hi: int) {
    exists i :: 0 <= i < |audits| && IsBurst(audits[i], event, actor) && lo <= audits[i].at <= hi
  }

  lemma {:induction false} GuessesAreFailures(audits: seq<Audit>, event: nat, actor: nat, how: ServeMethod,
                                              lo: int, hi: int, since: int)
    requires since <= lo
    ensures Guesses(audits, event, actor, how, lo, hi) <= FailureCount(audits, event, actor, how, since)
  {
    if audits != [] { GuessesAreFailures(audits[..|audits| - 1], event, actor, how, lo, hi, since); }
  }

  /** Before a burst in the interval each method has at most five guesses; the burst guess is the last. */
  predicate Bounded(audits: seq<Audit>, event: nat, actor: nat, lo: int, hi: int) {
    if BurstIn(audits, event, actor, lo, hi) then
      (forall how :: Guesses(audits, event, actor, how, lo, hi) <= BURST_THRESHOLD + 1) &&
      AllGuesses(audits, event, actor, lo, hi) <= 3 * BURST_THRESHOLD + 1
    else
      forall how :: Guesses(audits, event, actor, how, lo, hi) <= BURST_THRESHOLD
  }

  lemma GuessStep(before: seq<Audit>, a: Audit, event: nat, actor: nat, lo: int, hi: int)
    requires hi <= lo + BURST_WINDOW && Bounded(before, event, actor, lo, hi) && Lawful(before, a)
    ensures Bounded(before + [a], event, actor, lo, hi)
  {
    var r := before + [a];
    assert r[..|before|] == before;
    assert forall i :: 0 <= i < |before| ==> r[i] == before[i];
    assert BurstIn(r, event, actor, lo, hi) <==>
           BurstIn(before, event, actor, lo, hi) || (IsBurst(a, event, actor) && lo <= a.at <= hi) by {
      if IsBurst(a, event, actor) && lo <= a.at <= hi { assert IsBurst(r[|before|], event, actor); }
    }
    if a.Guess? && IsGuess(a, event, actor, a.how, lo, hi) {
      assert !BurstIn(before, event, actor, lo, hi);
      GuessesAreFailures(before, event, actor, a.how, lo, hi, a.at - BURST_WINDOW);
      assert forall how :: Guesses(r, event, actor, how, lo, hi) ==
                           Guesses(before, event, actor, how, lo, hi) + (if how == a.how then 1 else 0);
      assert AllGuesses(r, event, actor, lo, hi) == AllGuesses(before, event, actor, lo, hi) + 1 by {
        match a.how case QrScan => case ManualToken => case FlatLookup =>
      }
    } else {
      assert forall how :: Guesses(r, event, actor, how, lo, hi) == Guesses(before, event, actor, how, lo, hi);
    }
  }

  lemma {:induction false} GuessesBounded(audits: seq<Audit>, event: nat, actor: nat, lo: int, hi: int)
    requires LawfulLog(audits) && hi <= lo + BURST_WINDOW
    ensures Bounded(audits, event, actor, lo, hi)
  {
    if audits != [] {
      var n := |audits| - 1;
      GuessesBounded(audits[..n], event, actor, lo, hi);
      GuessStep(audits[..n], audits[n], event, actor, lo, hi);
      assert audits == audits[..n] + [audits[n]];
    }
  }

  lemma {:induction false} NoServeWhileLocked(audits: seq<Audit>, i: nat, j: nat)
    requires LawfulLog(audits) && i < j < |audits|
    requires audits[j].ServedToken? && IsBurst(audits[i], audits[j].event, audits[j].actor)
    ensures audits[j].at >= audits[i].at + LOCKOUT
  {
    var n := |audits| - 1;
    if j < n {
      NoServeWhileLocked(audits[..n], i, j);
    } else {
      assert audits[..n][i] == audits[i];
    }
  }

  /** Over every run: in any closed three-minute interval one actor makes at most 6 unknown-token
      guesses at an event with one method and at most 16 with all three, and after a burst no token is
      served to that actor at that event for ten minutes. */
  lemma {:induction false} FailedGuessBound(ops: seq<Op>, event: nat, actor: nat, lo: int, hi: int)
    requires Timely(ops) && hi <= lo + 180_000_000
    ensures var audits := Run(ops).audits;
            && (forall how :: Guesses(audits, event, actor, how, lo, hi) <= 6)
            && AllGuesses(audits, event, actor, lo, hi) <= 16
            && (forall i, j :: 0 <= i < j < |audits| && IsBurst(audits[i], event, actor) &&
                               ServedTo(audits[j], event, actor) ==>
                  audits[j].at >= audits[i].at + 600_000_000)
  {
    RunsAreLawful(ops);
    var audits := Run(ops).audits;
    GuessesBounded(audits, event, actor, lo, hi);
    forall i, j | 0 <= i < j < |audits| && IsBurst(audits[i], event, actor) && ServedTo(audits[j], event, actor)
      ensures audits[j].at >= audits[i].at + 600_000_000
    {
      NoServeWhileLocked(audits, i, j);
    }
  }

  predicate ServedTo(a: Audit, event: nat, actor: nat) {
    a.ServedToken? && a.event == event && a.actor == actor
  }
}
