/** What the food operations do across events, overrides and whole runs. */
module FoodRuns {
  import opened Options
  import opened Text
  import opened FoodModel
  import opened FoodGeneration
  import opened FoodEntitlement
  import opened FoodSummary

  // ---------------------------------------------------------------- every run leaves the tables in order

  /** Generations draw codes of their own length over the token alphabet. */
  ghost predicate LegalRun(ops: seq<Op>) {
    forall k :: 0 <= k < |ops| ==> LegalOp(ops[k])
  }

  ghost predicate LegalOp(op: Op) {
    op.GenerateOp? && op.length >= 0 ==> LegalDraws(op.draws, op.length)
  }

  ghost predicate Orderly(db: Db) {
    UniquePasses(db.passes) && forall event :: CodesInOrder(db.tokens, event)
  }

  lemma SameCodesInOrder(a: seq<Token>, b: seq<Token>, event: nat)
    requires SameEvents(b, a) && CodesInOrder(a, event)
    ensures CodesInOrder(b, event)
  {
  }

  lemma NewCodesInOrder(before: seq<Token>, added: seq<Token>, e: nat, event: nat)
    requires CodesInOrder(before, event)
    requires forall i :: 0 <= i < |before| ==> before[i].event != e
    requires forall k :: 0 <= k < |added| ==>
               added[k].event == e && Normalize(added[k].code) == added[k].code && WellFormedCode(added[k].code)
    requires forall j, k :: 0 <= j < k < |added| ==> added[j].code != added[k].code
    ensures CodesInOrder(before + added, event)
  {
    var all := before + added;
    forall i, j | 0 <= i < j < |all| && all[i].event == event && all[j].event == event
      ensures all[i].code != all[j].code
    {
      if j >= |before| {
        assert all[j] == added[j - |before|];
        if i >= |before| { assert all[i] == added[i - |before|]; }
      }
    }
  }

  lemma GenerationStaysOrderly(db: Db, e: nat, length: int, draws: nat -> string, gate: Gate)
    requires Orderly(db) && (length >= 0 ==> LegalDraws(draws, length))
    ensures Orderly(Generate(db, e, length, draws, gate).0)
  {
    var (r, outcome) := Generate(db, e, length, draws, gate);
    if outcome == Done {
      GenerationIsExact(db, e, length, draws, gate);
      var added := r.tokens[|db.tokens|..];
      assert r.tokens == db.tokens + added;
      forall event ensures CodesInOrder(r.tokens, event) {
        assert CodesInOrder(db.tokens, event);
        NewCodesInOrder(db.tokens, added, e, event);
      }
    }
  }

  lemma StepStaysOrderly(db: Db, op: Op)
    requires Orderly(db) && LegalOp(op)
    ensures Orderly(Apply(db, op).0)
  {
    match op
    case GenerateOp(e, length, draws, gate) => GenerationStaysOrderly(db, e, length, draws, gate);
    case AddPassOp(e, f, veg, jain, kids, gate) => SetPassEntitles(db.passes, Pass(e, f, veg, jain, kids, true), e, f);
    case OptOutOp(e, f, gate) => SetPassEntitles(db.passes, Pass(e, f, 0, 0, 0, false), e, f);
    case other =>
      OtherOpsKeepTokens(db, other);
      forall event ensures CodesInOrder(Apply(db, op).0.tokens, event) {
        assert CodesInOrder(db.tokens, event);
        SameCodesInOrder(db.tokens, Apply(db, op).0.tokens, event);
      }
      ServingKeepsPasses(db, other);
  }

  lemma ServingKeepsPasses(db: Db, op: Op)
    requires ServeOp(op)
    ensures Apply(db, op).0.passes == db.passes
  {
    ServeOpEffect(db, op, 0, 0);
  }

  /** In every run each event and flat has one pass, and the tokens of each event have pairwise distinct
      codes, each of which passes the counters' format check as it is. */
  lemma {:induction false} RunsAreOrderly(ops: seq<Op>)
    requires LegalRun(ops)
    ensures Orderly(Run(ops))
  {
    if ops != [] {
      RunsAreOrderly(ops[..|ops| - 1]);
      StepStaysOrderly(Run(ops[..|ops| - 1]), ops[|ops| - 1]);
    }
  }

  /** After any run, once a counter is open and the actor is not locked out, serving alone can overdraw a
      flat exactly when its tokens and its plates without one already exceed its entitlement. */
  lemma {:induction false} OverdrawInRunsIff(ops: seq<Op>, event: nat, flat: nat, actor: nat, now: int)
    requires LegalRun(ops)
    requires CheckCounter(Run(ops), event, now).1.None? && !Locked(Run(ops).audits, event, actor, now)
    ensures var db := Run(ops);
            WithinBudget(db, event, flat) <==>
            forall more :: ServeOnly(more) ==>
                Plates(RunFrom(db, more), event, flat) <= Entitled(db.passes, event, flat)
  {
    RunsAreOrderly(ops);
    assert CodesInOrder(Run(ops).tokens, event);
    OverdrawIff(Run(ops), event, flat, actor, now);
  }

  // ---------------------------------------------------------------- lookups under an override

  predicate TokenWaits(db: Db, event: nat, flat: nat) {
    exists i :: 0 <= i < |db.tokens| && IsWaiting(db.tokens[i], event, flat)
  }

  /** The override that let a lookup pass is not handed on to the token check: an overridden lookup is
      answered "not permitted" exactly when the counter is open and the flat has a waiting token whose
      code is well formed. */
  lemma OverriddenLookupIff(db: Db, event: nat, flat: nat, actor: nat, now: int)
    ensures FlatServe(db, event, flat, actor, now, Overridden).1 == Refused(NotPermitted) <==>
            && CheckCounter(db, event, now).1.None?
            && FirstWaiting(db.tokens, event, flat).Some?
            && WellFormedCode(Normalize(db.tokens[FirstWaiting(db.tokens, event, flat).value].code))
  {
    FlatLookupParses();
  }

  /** In every run, where all codes are well formed: exactly when the counter is open and a token waits. */
  lemma OverriddenLookupInRunsIff(ops: seq<Op>, event: nat, flat: nat, actor: nat, now: int)
    requires LegalRun(ops)
    ensures FlatServe(Run(ops), event, flat, actor, now, Overridden).1 == Refused(NotPermitted) <==>
            CheckCounter(Run(ops), event, now).1.None? && TokenWaits(Run(ops), event, flat)
  {
    var db := Run(ops);
    RunsAreOrderly(ops);
    assert CodesInOrder(db.tokens, event);
    OverriddenLookupIff(db, event, flat, actor, now);
  }

  // ---------------------------------------------------------------- plates of other events

  /** Serves without a token for the flat at other events. */
  function FallbacksElsewhere(audits: seq<Audit>, event: nat, flat: nat): nat {
    if audits == [] then 0
    else
      var a := audits[|audits| - 1];
      FallbacksElsewhere(audits[..|audits| - 1], event, flat)
          + (if IsFallback(a, flat) && a.event != event then 1 else 0)
  }

  lemma {:induction false} FallbacksSplit(audits: seq<Audit>, event: nat, flat: nat)
    ensures FallbacksAnywhere(audits, flat)
        == FallbacksAt(audits, event, flat) + FallbacksElsewhere(audits, event, flat)
  {
    if audits != [] { FallbacksSplit(audits[..|audits| - 1], event, flat); }
  }

  /** A flat with entitlement left at the event, at an open counter and without a waiting token, is
      refused exactly when its plates without a token at OTHER events make up for what is left; otherwise
      it is served. */
  lemma EntitledFlatRefusedIff(db: Db, event: nat, flat: nat, actor: nat, now: int, gate: Gate)
    requires gate != Denied && CheckCounter(db, event, now).1.None? && FirstWaiting(db.tokens, event, flat).None?
    requires Plates(db, event, flat) < Entitled(db.passes, event, flat)
    ensures var answer := FlatServe(db, event, flat, actor, now, gate).1;
            if FallbacksElsewhere(db.audits, event, flat) >= Entitled(db.passes, event, flat) - Plates(db, event, flat)
            then answer == Refused(NoEntitlement) else answer == FellBack
  {
    FallbacksSplit(db.audits, event, flat);
  }

  /** The per-flat view of an event counts the flat's plates at that event exactly when the flat had no
      plate without a token at another. */
  lemma FlatViewExactIff(db: Db, event: nat, flat: nat)
    ensures FlatTotals(db, event, flat).served == Plates(db, event, flat) <==>
            FallbacksElsewhere(db.audits, event, flat) == 0
  {
    FallbacksSplit(db.audits, event, flat);
  }

  function SumPlates(db: Db, event: nat, order: seq<nat>): nat {
    if order == [] then 0 else Plates(db, event, order[0]) + SumPlates(db, event, order[1..])
  }

  lemma {:induction false} SumServedVsPlates(db: Db, event: nat, order: seq<nat>)
    ensures SumTotals(db, event, order).served >= SumPlates(db, event, order)
    ensures SumTotals(db, event, order).served == SumPlates(db, event, order) <==>
            forall f :: f in order ==> FallbacksElsewhere(db.audits, event, f) == 0
  {
    if order != [] {
      SumServedVsPlates(db, event, order[1..]);
      FallbacksSplit(db.audits, event, order[0]);
      assert order == [order[0]] + order[1..];
    }
  }

  /** The dashboard of an event counts the plates of that event exactly when none of its flats had a
      plate without a token at another. */
  lemma DashboardExactIff(db: Db, event: nat, order: seq<nat>)
    requires Enumerates(order, Flats(db, event))
    ensures Dashboard(db, event).served == SumPlates(db, event, order) <==>
            forall f :: f in order ==> FallbacksElsewhere(db.audits, event, f) == 0
  {
    DashboardAgreesWithFlats(db, event, order);
    SumServedVsPlates(db, event, order);
  }

  // ---------------------------------------------------------------- runs that show it

  lemma RunStep(ops: seq<Op>, op: Op)
    ensures Run(ops + [op]) == Apply(Run(ops), op).0
  {
    assert (ops + [op])[..|ops|] == ops;
  }

  /** A flat books one plate at each of two events. Served without a token at the one, it is refused its
      plate at the other, although it had none there, and the other event's view shows one as served. */
  lemma {:induction false} ServedAtTheOtherEvent(e: nat, f: nat, flat: nat, actor: nat) returns (ops: seq<Op>)
    requires e != f
    ensures var db := Run(ops);
            && Entitled(db.passes, f, flat) == 1 && Plates(db, f, flat) == 0
            && FlatServe(db, f, flat, actor, 0, Permitted).1 == Refused(NoEntitlement)
            && FlatTotals(db, f, flat).served == 1
  {
    var p, q := Pass(e, flat, 1, 0, 0, true), Pass(f, flat, 1, 0, 0, true);
    ops := BothBooked(p, q);
    ops := BothOpen(ops, p, q);
    var db := Run(ops);
    TwoBookings(p, q);
    FallsBack(db, e, flat, actor);
    RunStep(ops, FlatOp(e, flat, actor, 0, Permitted));
    ops := ops + [FlatOp(e, flat, actor, 0, Permitted)];
    RefusedElsewhere(Run(ops), e, f, flat, actor);
  }

  lemma BothBooked(p: Pass, q: Pass) returns (ops: seq<Op>)
    requires p == Pass(p.event, p.flat, 1, 0, 0, true) && q == Pass(q.event, p.flat, 1, 0, 0, true)
    requires p.event != q.event
    ensures Run(ops) == EmptyDb.(passes := [p, q])
  {
    var first, second := AddPassOp(p.event, p.flat, 1, 0, 0, Permitted), AddPassOp(q.event, q.flat, 1, 0, 0, Permitted);
    RunStep([], first);
    assert Run([] + [first]) == EmptyDb.(passes := [p]);
    RunStep([] + [first], second);
    assert [p][1..] == [] && SetPass([], q) == [q];
    assert SetPass([p], q) == [p, q];
    ops := [] + [first] + [second];
  }

  lemma BothOpen(booked: seq<Op>, p: Pass, q: Pass) returns (ops: seq<Op>)
    requires Run(booked) == EmptyDb.(passes := [p, q]) && p.event != q.event
    ensures var db := Run(ops);
            && db.passes == [p, q] && db.tokens == [] && db.audits == []
            && CheckCounter(db, p.event, 0) == (db, None) && CheckCounter(db, q.event, 0) == (db, None)
  {
    var first, second := OpenOp(p.event, 0, 120, Permitted), OpenOp(q.event, 0, 120, Permitted);
    RunStep(booked, first);
    RunStep(booked + [first], second);
    ops := booked + [first] + [second];
  }

  lemma FallsBack(db: Db, e: nat, flat: nat, actor: nat)
    requires CheckCounter(db, e, 0) == (db, None) && db.tokens == [] && db.audits == []
    requires Entitled(db.passes, e, flat) == 1
    ensures FlatServe(db, e, flat, actor, 0, Permitted)
         == (db.(audits := [ServedWithoutToken(e, flat, actor, 0)]), FellBack)
  {
    assert [] + [ServedWithoutToken(e, flat, actor, 0)] == [ServedWithoutToken(e, flat, actor, 0)];
  }

  lemma RefusedElsewhere(db: Db, e: nat, f: nat, flat: nat, actor: nat)
    requires e != f && CheckCounter(db, f, 0).1.None? && db.tokens == []
    requires db.audits == [ServedWithoutToken(e, flat, actor, 0)] && Entitled(db.passes, f, flat) == 1
    ensures Plates(db, f, flat) == 0 && FlatTotals(db, f, flat).served == 1
    ensures FlatServe(db, f, flat, actor, 0, Permitted).1 == Refused(NoEntitlement)
  {
    var audit := ServedWithoutToken(e, flat, actor, 0);
    assert db.audits == [] + [audit] && ([] + [audit])[..0] == [];
    assert FallbacksElsewhere([], f, flat) == 0 && FallbacksAt([], f, flat) == 0;
    assert FallbacksElsewhere(db.audits, f, flat) == 1 && FallbacksAt(db.audits, f, flat) == 0;
    FallbacksSplit(db.audits, f, flat);
    EntitledFlatRefusedIff(db, f, flat, actor, 0, Permitted);
  }

  lemma TwoBookings(p: Pass, q: Pass)
    requires p == Pass(p.event, p.flat, 1, 0, 0, true) && q == Pass(q.event, p.flat, 1, 0, 0, true)
    requires p.event != q.event
    ensures Entitled([p, q], p.event, p.flat) == 1 && Entitled([p, q], q.event, p.flat) == 1
  {
    assert [p, q][1..] == [q] && [q][1..] == [];
    assert Entitled([q], p.event, p.flat) == 0 && Entitled([q], q.event, p.flat) == 1;
  }

  /** The counter is open and the one booked plate was handed out without a token. */
  predicate FellBackOnce(db: Db, actor: nat) {
    && db.passes == [Pass(0, 0, 1, 0, 0, true)] && db.tokens == []
    && db.audits == [ServedWithoutToken(0, 0, actor, 0)] && CheckCounter(db, 0, 0) == (db, None)
  }

  lemma {:induction false} FallBackOnce(actor: nat) returns (ops: seq<Op>)
    ensures FellBackOnce(Run(ops), actor)
  {
    var p := Pass(0, 0, 1, 0, 0, true);
    var booked := OneBooking(p);
    OnePlate(p);
    RunStep(booked, OpenOp(0, 0, 120, Permitted));
    ops := booked + [OpenOp(0, 0, 120, Permitted)];
    FallsBack(Run(ops), 0, 0, actor);
    RunStep(ops, FlatOp(0, 0, actor, 0, Permitted));
    ops := ops + [FlatOp(0, 0, actor, 0, Permitted)];
  }

  /** After that, and with the plate's token generated. */
  predicate TokenWaitsToo(db: Db, actor: nat, token: Token) {
    && db.passes == [Pass(0, 0, 1, 0, 0, true)] && db.tokens == [token]
    && db.audits == [ServedWithoutToken(0, 0, actor, 0), GeneratedTokens(0, 1)] && CheckCounter(db, 0, 0) == (db, None)
  }

  lemma {:induction false} ThenGenerate(ops0: seq<Op>, actor: nat, draws: nat -> string) returns (ops: seq<Op>)
    requires FellBackOnce(Run(ops0), actor) && IsDraw(draws(0), 8)
    ensures TokenWaitsToo(Run(ops), actor, Token(0, 0, Veg, draws(0), None))
    ensures Normalize(draws(0)) == draws(0) && WellFormedCode(draws(0))
  {
    OneToken(Run(ops0), Pass(0, 0, 1, 0, 0, true), draws);
    RunStep(ops0, GenerateOp(0, 8, draws, Permitted));
    ops := ops0 + [GenerateOp(0, 8, draws, Permitted)];
  }

  lemma {:induction false} ThenHandOut(ops0: seq<Op>, actor: nat, token: Token) returns (ops: seq<Op>)
    requires TokenWaitsToo(Run(ops0), actor, token)
    requires token.event == 0 && token.flat == 0 && token.served.None?
    requires Normalize(token.code) == token.code && WellFormedCode(token.code)
    ensures Entitled(Run(ops).passes, 0, 0) == 1 && Plates(Run(ops), 0, 0) == 2
  {
    OnePlate(Pass(0, 0, 1, 0, 0, true));
    TokenLookup(Run(ops0), token, actor);
    RunStep(ops0, FlatOp(0, 0, actor, 0, Permitted));
    TwoPlates(Run(ops0), token, actor);
    ops := ops0 + [FlatOp(0, 0, actor, 0, Permitted)];
  }

  lemma TwoPlates(db: Db, token: Token, actor: nat)
    requires db.tokens == [token] && token.event == 0 && token.flat == 0 && token.served.None?
    requires db.audits == [ServedWithoutToken(0, 0, actor, 0), GeneratedTokens(0, 1)]
    ensures Plates(Hand(db, 0, FlatLookup, actor, 0).0, 0, 0) == 2
  {
    var fallback, generated := ServedWithoutToken(0, 0, actor, 0), GeneratedTokens(0, 1);
    HandFigures(db, 0, 0, actor, 0, 0);
    assert [token][..0] == [] && ServedOf([token], 0, 0) == 0;
    assert db.audits == [] + [fallback] + [generated];
    FallbacksAppend([] + [fallback], generated, 0, 0);
    FallbacksAppend([], fallback, 0, 0);
  }

  /** A flat books one plate and has it without a token at the open counter. Then its token is generated,
      and a second lookup hands that out: two plates against an entitlement of one. */
  lemma {:induction false} GeneratedAfterFallback(draws: nat -> string, actor: nat) returns (ops: seq<Op>)
    requires LegalDraws(draws, 8)
    ensures Entitled(Run(ops).passes, 0, 0) == 1 && Plates(Run(ops), 0, 0) == 2
  {
    assert IsDraw(draws(0), 8);
    var fellBack := FallBackOnce(actor);
    var generated := ThenGenerate(fellBack, actor, draws);
    ops := ThenHandOut(generated, actor, Token(0, 0, Veg, draws(0), None));
  }

  /** One booked plate, its token generated, the counter open: a permitted lookup hands the token out, an
      overridden one is answered "not permitted". */
  lemma {:induction false} OverriddenLookupFails(draws: nat -> string) returns (ops: seq<Op>)
    requires LegalDraws(draws, 8)
    ensures FlatServe(Run(ops), 0, 0, 7, 0, Permitted).1 == Served(0)
    ensures FlatServe(Run(ops), 0, 0, 7, 0, Overridden).1 == Refused(NotPermitted)
  {
    var p := Pass(0, 0, 1, 0, 0, true);
    var booked := OneBooking(p);
    var generate, open := GenerateOp(0, 8, draws, Permitted), OpenOp(0, 0, 120, Permitted);
    RunStep(booked, generate);
    assert IsDraw(draws(0), 8);
    OneToken(Run(booked), p, draws);
    RunStep(booked + [generate], open);
    ops := booked + [generate] + [open];
    TokenLookup(Run(ops), Token(0, 0, Veg, draws(0), None), 7);
  }

  /** The same without the generation: the overridden lookup serves. */
  lemma OverriddenLookupServes() returns (ops: seq<Op>)
    ensures FlatServe(Run(ops), 0, 0, 7, 0, Overridden).1 == FellBack
  {
    var p := Pass(0, 0, 1, 0, 0, true);
    var booked := OneBooking(p);
    OnePlate(p);
    RunStep(booked, OpenOp(0, 0, 120, Permitted));
    ops := booked + [OpenOp(0, 0, 120, Permitted)];
  }

  lemma OneBooking(p: Pass) returns (ops: seq<Op>)
    requires p == Pass(0, 0, 1, 0, 0, true)
    ensures Run(ops) == EmptyDb.(passes := [p])
  {
    RunStep([], AddPassOp(0, 0, 1, 0, 0, Permitted));
    ops := [] + [AddPassOp(0, 0, 1, 0, 0, Permitted)];
  }

  lemma OnePlate(p: Pass)
    requires p == Pass(0, 0, 1, 0, 0, true)
    ensures Entitled([p], 0, 0) == 1 && Plan([p], 0) == [Slot(0, Veg)]
  {
    var slot := Slot(0, Veg);
    assert [p][1..] == [] && [p][..0] == [];
    assert Copies(slot, 0) == [] && Copies(slot, 1) == [slot];
    assert PassPlan(p) == [slot];
  }

  lemma NobodyLocked(audits: seq<Audit>, event: nat, actor: nat, now: int)
    requires forall i :: 0 <= i < |audits| ==> !audits[i].Guess?
    ensures !Locked(audits, event, actor, now)
  {
  }

  lemma TokenLookup(db: Db, token: Token, actor: nat)
    requires db.tokens == [token] && token.event == 0 && token.flat == 0 && token.served.None?
    requires Normalize(token.code) == token.code && WellFormedCode(token.code)
    requires CheckCounter(db, 0, 0) == (db, None) && forall i :: 0 <= i < |db.audits| ==> !db.audits[i].Guess?
    ensures FlatServe(db, 0, 0, actor, 0, Permitted) == Hand(db, 0, FlatLookup, actor, 0)
    ensures FlatServe(db, 0, 0, actor, 0, Overridden).1 == Refused(NotPermitted)
  {
    assert [token][..0] == [];
    assert FirstWaiting(db.tokens, 0, 0) == Some(0) && FindToken(db.tokens, 0, token.code) == Some(0);
    NobodyLocked(db.audits, 0, actor, 0);
    FlatLookupParses();
    OverriddenLookupIff(db, 0, 0, actor, 0);
  }

  lemma OneToken(db: Db, p: Pass, draws: nat -> string)
    requires p == Pass(0, 0, 1, 0, 0, true) && db.passes == [p] && db.tokens == []
    requires IsDraw(draws(0), 8)
    ensures Normalize(draws(0)) == draws(0) && WellFormedCode(draws(0))
    ensures Generate(db, 0, 8, draws, Permitted) ==
            (db.(tokens := [Token(0, 0, Veg, draws(0), None)], audits := db.audits + [GeneratedTokens(0, 1)]), Done)
  {
    OnePlate(p);
    DrawOne(draws, 8);
    GeneratedCodePassesIff(draws(0), 8);
    var added := NewTokens(0, [Slot(0, Veg)], [draws(0)]);
    assert added == [Token(0, 0, Veg, draws(0), None)];
    assert [] + added == added;
  }

  lemma DrawOne(draws: nat -> string, length: nat)
    ensures DrawCodes(draws, length, 1) == Some(([draws(0)], 1))
  {
    SpaceIsPositive(length);
    assert DrawCodes(draws, length, 0) == Some(([], 0));
    assert MaxAttempts(0, length) >= 1;
    assert FirstFresh(draws, 0, [], MaxAttempts(0, length)) == Some(0);
    assert [] + [draws(0)] == [draws(0)];
  }

  lemma {:induction false} SpaceIsPositive(length: nat)
    ensures Space(length) >= 1
  {
    if length > 0 { SpaceIsPositive(length - 1); }
  }
}
