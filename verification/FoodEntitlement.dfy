/** How many plates a flat can get: when serving stays within the entitlement, and exactly when it
    does not. */
module FoodEntitlement {
  import opened Options
  import opened Text
  import opened FoodModel
  import opened FoodGeneration

  /** Every plate the flat can still claim by token, and every plate it had without one. */
  function Claims(db: Db, event: nat, flat: nat): nat {
    TokensOf(db.tokens, event, flat) + FallbacksAt(db.audits, event, flat)
  }

  /** Plates handed to the flat at the event. */
  function Plates(db: Db, event: nat, flat: nat): nat {
    ServedOf(db.tokens, event, flat) + FallbacksAt(db.audits, event, flat)
  }

  predicate WithinBudget(db: Db, event: nat, flat: nat) {
    Claims(db, event, flat) <= Entitled(db.passes, event, flat)
  }

  ghost predicate Budget(db: Db) {
    forall event, flat :: WithinBudget(db, event, flat)
  }

  predicate FallbackMeansServed(db: Db, event: nat, flat: nat) {
    FallbacksAt(db.audits, event, flat) > 0 ==> ServedOf(db.tokens, event, flat) == TokensOf(db.tokens, event, flat)
  }

  // ---------------------------------------------------------------- counting lemmas

  lemma FallbacksAppend(audits: seq<Audit>, a: Audit, event: nat, flat: nat)
    ensures FallbacksAt(audits + [a], event, flat) ==
            FallbacksAt(audits, event, flat) + (if IsFallback(a, flat) && a.event == event then 1 else 0)
  {
    assert (audits + [a])[..|audits|] == audits;
  }

  lemma {:induction false} FallbacksAtMostAnywhere(audits: seq<Audit>, event: nat, flat: nat)
    ensures FallbacksAt(audits, event, flat) <= FallbacksAnywhere(audits, flat)
  {
    if audits != [] { FallbacksAtMostAnywhere(audits[..|audits| - 1], event, flat); }
  }

  lemma {:induction false} ServedAtMostTokens(tokens: seq<Token>, event: nat, flat: nat)
    ensures ServedOf(tokens, event, flat) <= TokensOf(tokens, event, flat)
    ensures ServedOf(tokens, event, flat) == TokensOf(tokens, event, flat) <==>
            forall i :: 0 <= i < |tokens| ==> !IsWaiting(tokens[i], event, flat)
  {
    if tokens != [] {
      var n := |tokens| - 1;
      ServedAtMostTokens(tokens[..n], event, flat);
      assert forall i :: 0 <= i < n ==> tokens[..n][i] == tokens[i];
    }
  }

  lemma {:induction false} HandCounts(tokens: seq<Token>, i: nat, s: Serving, event: nat, flat: nat)
    requires i < |tokens| && tokens[i].served.None?
    ensures var r := tokens[i := tokens[i].(served := Some(s))];
            var own := tokens[i].event == event && tokens[i].flat == flat;
            && TokensOf(r, event, flat) == TokensOf(tokens, event, flat)
            && ServedOf(r, event, flat) == ServedOf(tokens, event, flat) + (if own then 1 else 0)
  {
    var n := |tokens| - 1;
    var r := tokens[i := tokens[i].(served := Some(s))];
    if i < n {
      HandCounts(tokens[..n], i, s, event, flat);
      assert r[..n] == tokens[..n][i := tokens[i].(served := Some(s))];
    } else {
      assert r[..n] == tokens[..n];
    }
  }

  // ---------------------------------------------------------------- serving keeps the budget

  predicate ServeOp(op: Op) {
    op.OpenOp? || op.VerifyOp? || op.FlatOp?
  }

  /** What a serving operation can do to a flat's figures: hand out one of its tokens, or, with none
      of them waiting and entitlement left, one plate without a token. */
  predicate ServeEffect(db: Db, r: Db, event: nat, flat: nat) {
    && r.passes == db.passes
    && TokensOf(r.tokens, event, flat) == TokensOf(db.tokens, event, flat)
    && var s, s' := ServedOf(db.tokens, event, flat), ServedOf(r.tokens, event, flat);
       var f, f' := FallbacksAt(db.audits, event, flat), FallbacksAt(r.audits, event, flat);
       || (s' == s && f' == f)
       || (s' == s + 1 && f' == f)
       || (s' == s && f' == f + 1 && s == TokensOf(db.tokens, event, flat) && s + f < Entitled(db.passes, event, flat))
  }

  lemma VerifyEffect(db: Db, e: nat, code: string, how: string, actor: nat, now: int, gate: Gate, event: nat, flat: nat)
    ensures ServeEffect(db, Verify(db, e, code, how, actor, now, gate).0, event, flat)
  {
    var (r, outcome) := Verify(db, e, code, how, actor, now, gate);
    if r.audits != db.audits { FallbacksAppend(db.audits, r.audits[|db.audits|], event, flat); }
    if outcome.Served? {
      var i := outcome.token;
      HandCounts(db.tokens, i, r.tokens[i].served.value, event, flat);
    }
  }

  lemma FlatEffect(db: Db, e: nat, f: nat, actor: nat, now: int, gate: Gate, event: nat, flat: nat)
    ensures ServeEffect(db, FlatServe(db, e, f, actor, now, gate).0, event, flat)
  {
    var (r, outcome) := FlatServe(db, e, f, actor, now, gate);
    var waiting := FirstWaiting(db.tokens, e, f);
    if gate != Denied && CheckCounter(db, e, now).1.None? && waiting.Some? {
      VerifyEffect(db, e, db.tokens[waiting.value].code, "FLAT_LOOKUP", actor, now,
                   if gate == Permitted then Permitted else Denied, event, flat);
    } else {
      if r.audits != db.audits { FallbacksAppend(db.audits, r.audits[|db.audits|], event, flat); }
      ServedAtMostTokens(db.tokens, e, f);
      FallbacksAtMostAnywhere(db.audits, e, f);
    }
  }

  lemma ServeOpEffect(db: Db, op: Op, event: nat, flat: nat)
    requires ServeOp(op)
    ensures ServeEffect(db, Apply(db, op).0, event, flat)
  {
    match op
    case VerifyOp(e, code, how, actor, now, gate) => VerifyEffect(db, e, code, how, actor, now, gate, event, flat);
    case FlatOp(e, f, actor, now, gate) => FlatEffect(db, e, f, actor, now, gate, event, flat);
    case _ =>
  }

  /** Serving never takes a flat out of its budget, and a plate without a token is given only after all
      the flat's tokens. */
  lemma ServingKeepsBudget(db: Db, op: Op, event: nat, flat: nat)
    requires ServeOp(op)
    ensures WithinBudget(db, event, flat) ==> WithinBudget(Apply(db, op).0, event, flat)
    ensures FallbackMeansServed(db, event, flat) ==> FallbackMeansServed(Apply(db, op).0, event, flat)
  {
    ServeOpEffect(db, op, event, flat);
    ServedAtMostTokens(db.tokens, event, flat);
    ServedAtMostTokens(Apply(db, op).0.tokens, event, flat);
  }

  // ---------------------------------------------------------------- generating

  lemma {:induction false} TokensOfConcat(a: seq<Token>, b: seq<Token>, event: nat, flat: nat)
    ensures TokensOf(a + b, event, flat) == TokensOf(a, event, flat) + TokensOf(b, event, flat)
    ensures ServedOf(a + b, event, flat) == ServedOf(a, event, flat) + ServedOf(b, event, flat)
  {
    if b == [] {
      assert a + b == a;
    } else {
      assert (a + b)[..|a + b| - 1] == a + b[..|b| - 1];
      TokensOfConcat(a, b[..|b| - 1], event, flat);
    }
  }

  function Plan1(p: Pass): nat {
    AtLeastZero(p.veg) + AtLeastZero(p.jain) + AtLeastZero(p.kids)
  }

  /** The tokens a generation makes for the flat. */
  function Planned(passes: seq<Pass>, event: nat, flat: nat): nat {
    if passes == [] then 0
    else
      var p := passes[0];
      Planned(passes[1..], event, flat) + (if IsPassOf(p, event, flat) && p.participating then Plan1(p) else 0)
  }

  function FlatSlots(slots: seq<Slot>, flat: nat): nat {
    if slots == [] then 0
    else FlatSlots(slots[..|slots| - 1], flat) + (if slots[|slots| - 1].flat == flat then 1 else 0)
  }

  lemma {:induction false} FlatSlotsConcat(a: seq<Slot>, b: seq<Slot>, flat: nat)
    ensures FlatSlots(a + b, flat) == FlatSlots(a, flat) + FlatSlots(b, flat)
  {
    if b == [] {
      assert a + b == a;
    } else {
      assert (a + b)[..|a + b| - 1] == a + b[..|b| - 1];
      FlatSlotsConcat(a, b[..|b| - 1], flat);
    }
  }

  lemma {:induction false} FlatSlotsCopies(c: Slot, n: nat, flat: nat)
    ensures FlatSlots(Copies(c, n), flat) == if c.flat == flat then n else 0
  {
    if n > 0 {
      FlatSlotsCopies(c, n - 1, flat);
      assert Copies(c, n)[..|Copies(c, n)| - 1] == Copies(c, n - 1);
    }
  }

  lemma FlatSlotsPass(p: Pass, flat: nat)
    ensures FlatSlots(PassPlan(p), flat) == if p.flat == flat then Plan1(p) else 0
  {
    var a := Copies(Slot(p.flat, Veg), AtLeastZero(p.veg));
    var b := Copies(Slot(p.flat, Jain), AtLeastZero(p.jain));
    var c := Copies(Slot(p.flat, Kids), AtLeastZero(p.kids));
    FlatSlotsConcat(a + b, c, flat);
    FlatSlotsConcat(a, b, flat);
    FlatSlotsCopies(Slot(p.flat, Veg), AtLeastZero(p.veg), flat);
    FlatSlotsCopies(Slot(p.flat, Jain), AtLeastZero(p.jain), flat);
    FlatSlotsCopies(Slot(p.flat, Kids), AtLeastZero(p.kids), flat);
  }

  lemma {:induction false} PlannedConcat(a: seq<Pass>, b: seq<Pass>, event: nat, flat: nat)
    ensures Planned(a + b, event, flat) == Planned(a, event, flat) + Planned(b, event, flat)
  {
    if a == [] {
      assert a + b == b;
    } else {
      assert (a + b)[1..] == a[1..] + b;
      PlannedConcat(a[1..], b, event, flat);
    }
  }

  lemma {:induction false} PlanGivesPlanned(passes: seq<Pass>, event: nat, flat: nat)
    ensures FlatSlots(Plan(passes, event), flat) == Planned(passes, event, flat)
  {
    if passes != [] {
      var n := |passes| - 1;
      var p := passes[n];
      PlanGivesPlanned(passes[..n], event, flat);
      FlatSlotsConcat(Plan(passes[..n], event), PassPlan(p), flat);
      FlatSlotsPass(p, flat);
      PlannedConcat(passes[..n], [p], event, flat);
      assert passes == passes[..n] + [p];
      assert Planned([p][1..], event, flat) == 0;
    }
  }

  lemma {:induction false} NewTokensOf(event: nat, slots: seq<Slot>, codes: seq<string>, e: nat, flat: nat)
    requires |slots| == |codes|
    ensures var r := NewTokens(event, slots, codes);
            TokensOf(r, e, flat) == (if e == event then FlatSlots(slots, flat) else 0) && ServedOf(r, e, flat) == 0
  {
    if slots != [] {
      var n := |slots| - 1;
      NewTokensOf(event, slots[..n], codes[..n], e, flat);
      assert NewTokens(event, slots, codes)[..n] == NewTokens(event, slots[..n], codes[..n]);
    }
  }

  /** What a successful generation does to the figures of any flat at any event. */
  lemma GenerateEffect(db: Db, e: nat, length: int, draws: nat -> string, gate: Gate, event: nat, flat: nat)
    requires Generate(db, e, length, draws, gate).1 == Done
    ensures var r := Generate(db, e, length, draws, gate).0;
            && r.passes == db.passes
            && FallbacksAt(r.audits, event, flat) == FallbacksAt(db.audits, event, flat)
            && ServedOf(r.tokens, event, flat) == ServedOf(db.tokens, event, flat)
            && TokensOf(r.tokens, event, flat) ==
                 TokensOf(db.tokens, event, flat) + (if e == event then Planned(db.passes, e, flat) else 0)
  {
    var plan := Plan(db.passes, e);
    DrawCodesLength(draws, length, |plan|);
    var codes := DrawCodes(draws, length, |plan|).value.0;
    var r := Generate(db, e, length, draws, gate).0;
    assert r.tokens == db.tokens + NewTokens(e, plan, codes) && r.audits == db.audits + [GeneratedTokens(e, |plan|)];
    FallbacksAppend(db.audits, GeneratedTokens(e, |plan|), event, flat);
    NewTokensOf(e, plan, codes, event, flat);
    TokensOfConcat(db.tokens, NewTokens(e, plan, codes), event, flat);
    PlanGivesPlanned(db.passes, e, flat);
  }

  lemma {:induction false} NoTokensNone(tokens: seq<Token>, event: nat, flat: nat)
    requires forall i :: 0 <= i < |tokens| ==> tokens[i].event != event
    ensures TokensOf(tokens, event, flat) == 0
  {
    if tokens != [] { NoTokensNone(tokens[..|tokens| - 1], event, flat); }
  }

  predicate NonNegative(p: Pass) {
    p.veg >= 0 && p.jain >= 0 && p.kids >= 0
  }

  /** Every booking of the flat has non-negative counts. */
  predicate CleanBooking(passes: seq<Pass>, event: nat, flat: nat) {
    forall i :: 0 <= i < |passes| && IsPassOf(passes[i], event, flat) && passes[i].participating ==>
      NonNegative(passes[i])
  }

  lemma {:induction false} PlannedVsEntitled(passes: seq<Pass>, event: nat, flat: nat)
    ensures Planned(passes, event, flat) >= Entitled(passes, event, flat)
    ensures Planned(passes, event, flat) == Entitled(passes, event, flat) <==> CleanBooking(passes, event, flat)
  {
    if passes != [] {
      PlannedVsEntitled(passes[1..], event, flat);
      assert forall i :: 0 < i < |passes| ==> passes[i] == passes[1..][i - 1];
      assert forall i :: 0 <= i < |passes| - 1 ==> passes[1..][i] == passes[i + 1];
    }
  }

  /** Generation keeps a flat of the event within its budget exactly when the flat's bookings have no
      negative count and it had no plate without a token at the event before. */
  lemma GenerationKeepsBudgetIff(db: Db, event: nat, length: int, draws: nat -> string, gate: Gate, flat: nat)
    requires Generate(db, event, length, draws, gate).1 == Done
    requires WithinBudget(db, event, flat)
    ensures WithinBudget(Generate(db, event, length, draws, gate).0, event, flat) <==>
            CleanBooking(db.passes, event, flat) && FallbacksAt(db.audits, event, flat) == 0
    ensures forall other :: other != event && WithinBudget(db, other, flat) ==>
            WithinBudget(Generate(db, event, length, draws, gate).0, other, flat)
  {
    GenerateEffect(db, event, length, draws, gate, event, flat);
    NoTokensNone(db.tokens, event, flat);
    PlannedVsEntitled(db.passes, event, flat);
    forall other | other != event && WithinBudget(db, other, flat)
      ensures WithinBudget(Generate(db, event, length, draws, gate).0, other, flat)
    {
      GenerateEffect(db, event, length, draws, gate, other, flat);
    }
  }

  // ---------------------------------------------------------------- changing a pass

  lemma {:induction false} NoPassNoEntitlement(passes: seq<Pass>, event: nat, flat: nat)
    requires forall i :: 0 <= i < |passes| ==> !IsPassOf(passes[i], event, flat)
    ensures Entitled(passes, event, flat) == 0
  {
    if passes != [] { NoPassNoEntitlement(passes[1..], event, flat); }
  }

  lemma {:induction false} SetPassEntitles(passes: seq<Pass>, p: Pass, event: nat, flat: nat)
    requires UniquePasses(passes)
    ensures UniquePasses(SetPass(passes, p))
    ensures forall q :: q in SetPass(passes, p) ==> q == p || q in passes
    ensures Entitled(SetPass(passes, p), event, flat) ==
            if IsPassOf(p, event, flat) then (if p.participating then p.veg + p.jain + p.kids else 0)
            else Entitled(passes, event, flat)
  {
    if passes == [] {
      assert Entitled([p][1..], event, flat) == 0;
    } else if IsPassOf(passes[0], p.event, p.flat) {
      var r := [p] + passes[1..];
      assert r[1..] == passes[1..];
      if IsPassOf(p, event, flat) { NoPassNoEntitlement(passes[1..], event, flat); }
    } else {
      SetPassEntitles(passes[1..], p, event, flat);
      var rest := SetPass(passes[1..], p);
      var r := [passes[0]] + rest;
      assert r[1..] == rest;
      forall i, j | 0 <= i < j < |r| ensures !(r[i].event == r[j].event && r[i].flat == r[j].flat) {
        if i == 0 {
          assert rest[j - 1] in rest;
          if rest[j - 1] != p {
            var k :| 0 <= k < |passes[1..]| && passes[1..][k] == rest[j - 1];
            assert passes[k + 1] == rest[j - 1];
          }
        } else {
          assert r[i] == rest[i - 1] && r[j] == rest[j - 1];
        }
      }
    }
  }

  /** A booking keeps the flat within its budget exactly when it does not go below what the flat can
      already claim; an opt-out exactly when there is nothing to claim. */
  lemma BookingKeepsBudgetIff(db: Db, event: nat, flat: nat, veg: int, jain: int, kids: int, gate: Gate)
    requires UniquePasses(db.passes)
    ensures AddPass(db, event, flat, veg, jain, kids, gate).1 == Done ==>
              (WithinBudget(AddPass(db, event, flat, veg, jain, kids, gate).0, event, flat) <==>
               Claims(db, event, flat) <= veg + jain + kids)
    ensures OptOut(db, event, flat, gate).1 == Done ==>
              (WithinBudget(OptOut(db, event, flat, gate).0, event, flat) <==> Claims(db, event, flat) == 0)
  {
    SetPassEntitles(db.passes, Pass(event, flat, veg, jain, kids, true), event, flat);
    SetPassEntitles(db.passes, Pass(event, flat, 0, 0, 0, false), event, flat);
  }

  lemma {:induction false} SetPassPlans(passes: seq<Pass>, p: Pass, event: nat, flat: nat)
    requires UniquePasses(passes)
    ensures Planned(SetPass(passes, p), event, flat) ==
            if IsPassOf(p, event, flat) then (if p.participating then Plan1(p) else 0)
            else Planned(passes, event, flat)
  {
    if passes == [] {
      assert Planned([p][1..], event, flat) == 0;
    } else if IsPassOf(passes[0], p.event, p.flat) {
      assert ([p] + passes[1..])[1..] == passes[1..];
      if IsPassOf(p, event, flat) { NoPassNoPlan(passes[1..], event, flat); }
    } else {
      SetPassPlans(passes[1..], p, event, flat);
      assert ([passes[0]] + SetPass(passes[1..], p))[1..] == SetPass(passes[1..], p);
    }
  }

  lemma {:induction false} NoPassNoPlan(passes: seq<Pass>, event: nat, flat: nat)
    requires forall i :: 0 <= i < |passes| ==> !IsPassOf(passes[i], event, flat)
    ensures Planned(passes, event, flat) == 0
  {
    if passes != [] { NoPassNoPlan(passes[1..], event, flat); }
  }

  /** Of two bookings of a flat for an event, the later one wins, as if the earlier had not been made. */
  lemma {:induction false} LastBookingWins(passes: seq<Pass>, p: Pass, q: Pass)
    requires IsPassOf(p, q.event, q.flat)
    ensures SetPass(SetPass(passes, p), q) == SetPass(passes, q)
  {
    if passes == [] {
      assert [p][1..] == [] && [q] + [] == [q];
    } else if IsPassOf(passes[0], q.event, q.flat) {
      assert ([p] + passes[1..])[1..] == passes[1..];
    } else {
      LastBookingWins(passes[1..], p, q);
      assert ([passes[0]] + SetPass(passes[1..], p))[1..] == SetPass(passes[1..], p);
    }
  }

  /** After an opt-out the flat is entitled to nothing, a generation makes no token for it, and a lookup
      that finds no token of it is refused; a later booking leaves the bookings as if it had never opted out. */
  lemma OptOutForfeits(db: Db, event: nat, flat: nat, gate: Gate, actor: nat, now: int, booking: Pass)
    requires UniquePasses(db.passes) && OptOut(db, event, flat, gate).1 == Done
    requires IsPassOf(booking, event, flat)
    ensures var r := OptOut(db, event, flat, gate).0;
            && Entitled(r.passes, event, flat) == 0 && Planned(r.passes, event, flat) == 0
            && (CheckCounter(r, event, now).1.None? && FirstWaiting(r.tokens, event, flat).None? ==>
                  FlatServe(r, event, flat, actor, now, Permitted).1 == Refused(NoEntitlement))
            && SetPass(r.passes, booking) == SetPass(db.passes, booking)
  {
    var out := Pass(event, flat, 0, 0, 0, false);
    SetPassEntitles(db.passes, out, event, flat);
    SetPassPlans(db.passes, out, event, flat);
    LastBookingWins(db.passes, out, booking);
  }

  // ---------------------------------------------------------------- whole runs

  /** The steps under which the bound is promised: none that succeeds books a negative count, books a
      flat below what it can claim, or generates tokens for an event at which a flat was served without one. */
  ghost predicate Careful(db: Db, op: Op) {
    Apply(db, op).1 == Done ==>
      match op
      case GenerateOp(event, _, _, _) => forall flat :: FallbacksAt(db.audits, event, flat) == 0
      case AddPassOp(event, flat, veg, jain, kids, _) =>
        veg >= 0 && jain >= 0 && kids >= 0 && Claims(db, event, flat) <= veg + jain + kids
      case OptOutOp(event, flat, _) => Claims(db, event, flat) == 0
      case _ => true
  }

  ghost predicate CarefulRun(ops: seq<Op>) {
    forall k :: 0 <= k < |ops| ==> Careful(Run(ops[..k]), ops[k])
  }

  ghost predicate InOrder(db: Db) {
    && UniquePasses(db.passes)
    && (forall p :: p in db.passes ==> NonNegative(p))
    && Budget(db)
    && (forall event, flat :: FallbackMeansServed(db, event, flat))
  }

  lemma CarefulStep(db: Db, op: Op)
    requires InOrder(db) && Careful(db, op)
    ensures InOrder(Apply(db, op).0)
  {
    var r := Apply(db, op).0;
    RefusedChangesNothing(db, op);
    forall event, flat
      ensures WithinBudget(r, event, flat) && FallbackMeansServed(r, event, flat)
    {
      assert WithinBudget(db, event, flat) && FallbackMeansServed(db, event, flat);
      if Apply(db, op).1 == Done || ServeOp(op) { CarefulStepFor(db, op, event, flat); }
    }
    if Apply(db, op).1 == Done || ServeOp(op) { CarefulStepPasses(db, op); }
  }

  lemma RefusedChangesNothing(db: Db, op: Op)
    ensures Apply(db, op).1 != Done && !ServeOp(op) ==> Apply(db, op).0 == db
  {
  }

  lemma CarefulStepPasses(db: Db, op: Op)
    requires InOrder(db) && Careful(db, op) && (Apply(db, op).1 == Done || ServeOp(op))
    ensures UniquePasses(Apply(db, op).0.passes) && forall p :: p in Apply(db, op).0.passes ==> NonNegative(p)
  {
    match op
    case AddPassOp(event, flat, veg, jain, kids, gate) =>
      SetPassEntitles(db.passes, Pass(event, flat, veg, jain, kids, true), event, flat);
    case OptOutOp(event, flat, gate) => SetPassEntitles(db.passes, Pass(event, flat, 0, 0, 0, false), event, flat);
    case _ =>
  }

  lemma CarefulStepFor(db: Db, op: Op, event: nat, flat: nat)
    requires InOrder(db) && Careful(db, op) && (Apply(db, op).1 == Done || ServeOp(op))
    requires WithinBudget(db, event, flat) && FallbackMeansServed(db, event, flat)
    ensures WithinBudget(Apply(db, op).0, event, flat) && FallbackMeansServed(Apply(db, op).0, event, flat)
  {
    match op
    case GenerateOp(e, length, draws, gate) =>
      if Generate(db, e, length, draws, gate).1 == Done {
        assert forall i :: 0 <= i < |db.passes| ==> db.passes[i] in db.passes;
        GenerateEffect(db, e, length, draws, gate, event, flat);
        NoTokensNone(db.tokens, e, flat);
        PlannedVsEntitled(db.passes, e, flat);
      }
    case AddPassOp(e, f, veg, jain, kids, gate) =>
      SetPassEntitles(db.passes, Pass(e, f, veg, jain, kids, true), event, flat);
    case OptOutOp(e, f, gate) =>
      SetPassEntitles(db.passes, Pass(e, f, 0, 0, 0, false), event, flat);
    case _ => ServingKeepsBudget(db, op, event, flat);
  }

  /** In every careful run, at every event, no flat gets more plates than its participating booking
      entitles it to, and a plate without a token is given only after all its tokens. */
  lemma {:induction false} EntitlementBound(ops: seq<Op>)
    requires CarefulRun(ops)
    ensures var db := Run(ops);
            && InOrder(db)
            && (forall event, flat ::
                  && Plates(db, event, flat) <= Entitled(db.passes, event, flat)
                  && FallbackMeansServed(db, event, flat))
  {
    if ops != [] {
      var n := |ops| - 1;
      forall k | 0 <= k < n ensures Careful(Run(ops[..n][..k]), ops[..n][k]) {
        assert ops[..n][..k] == ops[..k];
      }
      EntitlementBound(ops[..n]);
      assert Careful(Run(ops[..n]), ops[n]);
      CarefulStep(Run(ops[..n]), ops[n]);
    }
    var db := Run(ops);
    forall event, flat ensures Plates(db, event, flat) <= Entitled(db.passes, event, flat) {
      assert WithinBudget(db, event, flat);
      ServedAtMostTokens(db.tokens, event, flat);
    }
  }

  // ---------------------------------------------------------------- exactly when serving can overdraw

  function RunFrom(db: Db, ops: seq<Op>): Db {
    if ops == [] then db else Apply(RunFrom(db, ops[..|ops| - 1]), ops[|ops| - 1]).0
  }

  predicate ServeOnly(ops: seq<Op>) {
    forall k :: 0 <= k < |ops| ==> ServeOp(ops[k])
  }

  /** The event's codes pass the format check as they are, and no two are the same. */
  predicate CodesInOrder(tokens: seq<Token>, event: nat) {
    && (forall i :: 0 <= i < |tokens| && tokens[i].event == event ==>
          Normalize(tokens[i].code) == tokens[i].code && WellFormedCode(tokens[i].code))
    && (forall i, j :: 0 <= i < j < |tokens| && tokens[i].event == event && tokens[j].event == event ==>
          tokens[i].code != tokens[j].code)
  }

  /** The counter is open, the actor is not locked out, and the event's codes are in order. */
  predicate ReadyToServe(db: Db, event: nat, actor: nat, now: int) {
    && event in db.counters && db.counters[event].isOpen && now <= db.counters[event].closesAt
    && !Locked(db.audits, event, actor, now)
    && CodesInOrder(db.tokens, event)
  }

  lemma FlatLookupParses()
    ensures ParseMethod("FLAT_LOOKUP") == Some(FlatLookup)
  {
    var m := "FLAT_LOOKUP";
    assert m[0] == 'F' && m[|m| - 1] == 'P';
    assert Strip(m) == m;
    assert forall i :: 0 <= i < |m| ==> UpperChar(m[i]) == m[i];
    assert Upper(m) == m;
    assert m != "QR_SCAN" && m != "MANUAL_TOKEN" by { assert |m| == 11 && |"QR_SCAN"| == 7 && |"MANUAL_TOKEN"| == 12; }
  }

  /** Handing out a flat's waiting token keeps the counter ready. */
  lemma HandStaysReady(db: Db, event: nat, flat: nat, actor: nat, now: int, i: nat)
    requires ReadyToServe(db, event, actor, now) && i < |db.tokens| && IsWaiting(db.tokens[i], event, flat)
    ensures ReadyToServe(Hand(db, i, FlatLookup, actor, now).0, event, actor, now)
  {
    var r := Hand(db, i, FlatLookup, actor, now).0;
    assert forall k :: 0 <= k < |r.tokens| ==>
             r.tokens[k].code == db.tokens[k].code && r.tokens[k].event == db.tokens[k].event;
    assert r.audits == db.audits + [ServedToken(event, i, actor, FlatLookup, now)];
    assert !Locked(r.audits, event, actor, now);
  }

  lemma HandFigures(db: Db, event: nat, flat: nat, actor: nat, now: int, i: nat)
    requires i < |db.tokens| && IsWaiting(db.tokens[i], event, flat)
    ensures var r := Hand(db, i, FlatLookup, actor, now).0;
            && TokensOf(r.tokens, event, flat) == TokensOf(db.tokens, event, flat)
            && ServedOf(r.tokens, event, flat) == ServedOf(db.tokens, event, flat) + 1
            && FallbacksAt(r.audits, event, flat) == FallbacksAt(db.audits, event, flat)
  {
    HandCounts(db.tokens, i, Serving(now, FlatLookup, actor), event, flat);
    FallbacksAppend(db.audits, ServedToken(event, i, actor, FlatLookup, now), event, flat);
  }

  /** As long as a token of the flat waits, a lookup by flat hands out the first one. */
  lemma LookupHands(db: Db, event: nat, flat: nat, actor: nat, now: int)
    requires ReadyToServe(db, event, actor, now) && FirstWaiting(db.tokens, event, flat).Some?
    ensures Apply(db, FlatOp(event, flat, actor, now, Permitted))
         == Hand(db, FirstWaiting(db.tokens, event, flat).value, FlatLookup, actor, now)
  {
    var i := FirstWaiting(db.tokens, event, flat).value;
    FlatLookupParses();
    FindsItself(db.tokens, event, i);
  }

  lemma FindsItself(tokens: seq<Token>, event: nat, i: nat)
    requires i < |tokens| && tokens[i].event == event
    requires forall j, k :: 0 <= j < k < |tokens| && tokens[j].event == event && tokens[k].event == event ==>
               tokens[j].code != tokens[k].code
    ensures FindToken(tokens, event, tokens[i].code) == Some(i)
  {
    var found := FindToken(tokens, event, tokens[i].code);
  }

  lemma {:induction false} AllTokensCanBeServed(db: Db, event: nat, flat: nat, actor: nat, now: int)
    returns (ops: seq<Op>)
    requires ReadyToServe(db, event, actor, now)
    ensures ServeOnly(ops) && Plates(RunFrom(db, ops), event, flat) == Claims(db, event, flat)
    decreases TokensOf(db.tokens, event, flat) - ServedOf(db.tokens, event, flat)
  {
    ServedAtMostTokens(db.tokens, event, flat);
    var waiting := FirstWaiting(db.tokens, event, flat);
    if waiting.None? {
      ops := [];
    } else {
      var r := Hand(db, waiting.value, FlatLookup, actor, now).0;
      HandStaysReady(db, event, flat, actor, now, waiting.value);
      HandFigures(db, event, flat, actor, now, waiting.value);
      var rest := AllTokensCanBeServed(r, event, flat, actor, now);
      ops := LookupFirst(db, event, flat, actor, now, r, rest);
    }
  }

  /** Putting the lookup that led to r in front of a run from r. */
  lemma LookupFirst(db: Db, event: nat, flat: nat, actor: nat, now: int, r: Db, rest: seq<Op>) returns (ops: seq<Op>)
    requires ReadyToServe(db, event, actor, now) && FirstWaiting(db.tokens, event, flat).Some? && ServeOnly(rest)
    requires r == Hand(db, FirstWaiting(db.tokens, event, flat).value, FlatLookup, actor, now).0
    ensures ServeOnly(ops) && RunFrom(db, ops) == RunFrom(r, rest)
  {
    var op := FlatOp(event, flat, actor, now, Permitted);
    LookupHands(db, event, flat, actor, now);
    ops := [op] + rest;
    RunFromFirst(db, op, rest);
  }

  lemma {:induction false} RunFromFirst(db: Db, op: Op, rest: seq<Op>)
    ensures RunFrom(db, [op] + rest) == RunFrom(Apply(db, op).0, rest)
  {
    var ops := [op] + rest;
    if rest == [] {
      assert ops[..0] == [];
    } else {
      RunFromFirst(db, op, rest[..|rest| - 1]);
      assert ops[..|ops| - 1] == [op] + rest[..|rest| - 1];
    }
  }

  lemma {:induction false} ServeOnlyKeepsBudget(db: Db, ops: seq<Op>, event: nat, flat: nat)
    requires ServeOnly(ops) && WithinBudget(db, event, flat)
    ensures RunFrom(db, ops).passes == db.passes && WithinBudget(RunFrom(db, ops), event, flat)
  {
    if ops != [] {
      var n := |ops| - 1;
      ServeOnlyKeepsBudget(db, ops[..n], event, flat);
      ServeOpEffect(RunFrom(db, ops[..n]), ops[n], event, flat);
      ServingKeepsBudget(RunFrom(db, ops[..n]), ops[n], event, flat);
    }
  }

  /** From any state in which a counter is ready, serving alone can give a flat more plates than its
      entitlement exactly when its tokens and its plates without a token already exceed it. */
  lemma OverdrawIff(db: Db, event: nat, flat: nat, actor: nat, now: int)
    requires ReadyToServe(db, event, actor, now)
    ensures (forall ops :: ServeOnly(ops) ==> Plates(RunFrom(db, ops), event, flat) <= Entitled(db.passes, event, flat))
       <==> WithinBudget(db, event, flat)
  {
    if WithinBudget(db, event, flat) {
      forall ops | ServeOnly(ops) ensures Plates(RunFrom(db, ops), event, flat) <= Entitled(db.passes, event, flat) {
        ServeOnlyKeepsBudget(db, ops, event, flat);
        ServedAtMostTokens(RunFrom(db, ops).tokens, event, flat);
      }
    } else {
      var ops := AllTokensCanBeServed(db, event, flat, actor, now);
    }
  }
}
