/** The food services as the source has them: rows updated in place, nested generation loops, a retry
    loop over random draws. Each method is proved against FoodModel. */
module FoodDesk {
  import opened Options
  import opened Text
  import opened FoodModel
  import opened FoodGeneration

  lemma {:induction false} DrawnAreDistinct(draws: nat -> string, length: nat, n: nat)
    ensures var r := DrawCodes(draws, length, n); r.Some? ==> |r.value.0| == n && Distinct(r.value.0)
  {
    if n > 0 {
      DrawnAreDistinct(draws, length, n - 1);
      var r := DrawCodes(draws, length, n);
      if r.Some? {
        var codes := DrawCodes(draws, length, n - 1).value.0;
        forall i, j | 0 <= i < j < n ensures r.value.0[i] != r.value.0[j] {
          if j == n - 1 { assert r.value.0[i] in codes; }
        }
      }
    }
  }

  function SetOf(codes: seq<string>): set<string> {
    set c | c in codes
  }

  lemma {:induction false} DistinctSize(codes: seq<string>)
    requires Distinct(codes)
    ensures |SetOf(codes)| == |codes|
  {
    if codes != [] {
      var n := |codes| - 1;
      DistinctSize(codes[..n]);
      assert codes[n] !in SetOf(codes[..n]);
      assert SetOf(codes) == SetOf(codes[..n]) + {codes[n]};
    }
  }

  /** One unique code by rejection sampling; None when the space or the attempts run out. */
  method BuildTokenCode(draws: nat -> string, start: nat, existing: set<string>, ghost codes: seq<string>, length: nat)
    returns (code: Option<string>, tick: nat)
    requires Distinct(codes) && existing == SetOf(codes)
    ensures var r := if |codes| >= Space(length) then None
                     else FirstFresh(draws, start, codes, MaxAttempts(|codes|, length));
            if r.None? then code.None? else code == Some(draws(r.value)) && tick == r.value + 1
  {
    tick := start;
    DistinctSize(codes);
    if |existing| >= Space(length) {
      return None, tick;
    }
    var maxAttempts := MaxAttempts(|existing|, length);
    var attempts := 0;
    while attempts < maxAttempts
      invariant attempts <= maxAttempts && tick == start + attempts
      invariant FirstFresh(draws, start, codes, maxAttempts) == FirstFresh(draws, tick, codes, maxAttempts - attempts)
    {
      attempts := attempts + 1;
      var token := draws(tick);
      tick := tick + 1;
      if token !in existing {
        return Some(token), tick;
      }
    }
    code := None;
  }

  /** The rows built so far are those of the given slots, with the codes drawn so far. */
  ghost predicate Built(event: nat, slots: seq<Slot>, draws: nat -> string, length: nat,
                        rows: seq<Token>, existing: set<string>, codes: seq<string>, tick: nat)
  {
    && |codes| == |slots|
    && rows == NewTokens(event, slots, codes)
    && existing == SetOf(codes)
    && DrawCodes(draws, length, |slots|) == Some((codes, tick))
  }

  lemma BuiltStep(event: nat, slots: seq<Slot>, slot: Slot, draws: nat -> string, length: nat,
                  rows: seq<Token>, existing: set<string>, codes: seq<string>, tick: nat, i: nat)
    requires Built(event, slots, draws, length, rows, existing, codes, tick)
    requires |codes| < Space(length) && FirstFresh(draws, tick, codes, MaxAttempts(|codes|, length)) == Some(i)
    ensures Built(event, slots + [slot], draws, length, rows + [Token(event, slot.flat, slot.foodType, draws(i), None)],
                  existing + {draws(i)}, codes + [draws(i)], i + 1)
  {
    assert |slots + [slot]| - 1 == |slots|;
  }

  /** One more row, when a unique code can be drawn. */
  method AppendRow(event: nat, slot: Slot, draws: nat -> string, length: nat,
                   rows0: seq<Token>, existing0: set<string>, tick0: nat, ghost slots: seq<Slot>,
                   ghost codes0: seq<string>)
    returns (ok: bool, rows: seq<Token>, existing: set<string>, tick: nat, ghost codes: seq<string>)
    requires Built(event, slots, draws, length, rows0, existing0, codes0, tick0)
    ensures ok ==> Built(event, slots + [slot], draws, length, rows, existing, codes, tick)
    ensures !ok ==> DrawCodes(draws, length, |slots| + 1).None?
  {
    DrawnAreDistinct(draws, length, |slots|);
    var code, next := BuildTokenCode(draws, tick0, existing0, codes0, length);
    if code.None? {
      return false, rows0, existing0, tick0, codes0;
    }
    BuiltStep(event, slots, slot, draws, length, rows0, existing0, codes0, tick0, next - 1);
    return true, rows0 + [Token(event, slot.flat, slot.foodType, code.value, None)], existing0 + {code.value}, next,
           codes0 + [code.value];
  }

  /** The innermost generation loop: n rows for one flat and food type. */
  method AppendRows(event: nat, slot: Slot, n: nat, draws: nat -> string, length: nat,
                    rows0: seq<Token>, existing0: set<string>, tick0: nat, ghost plan: seq<Slot>,
                    ghost codes0: seq<string>)
    returns (ok: bool, rows: seq<Token>, existing: set<string>, tick: nat, ghost codes: seq<string>)
    requires Built(event, plan, draws, length, rows0, existing0, codes0, tick0)
    ensures ok ==> Built(event, plan + Copies(slot, n), draws, length, rows, existing, codes, tick)
    ensures !ok ==> DrawCodes(draws, length, |plan + Copies(slot, n)|).None?
  {
    ok, rows, existing, tick, codes := true, rows0, existing0, tick0, codes0;
    assert plan + Copies(slot, 0) == plan;
    var i := 0;
    while i < n
      invariant i <= n
      invariant Built(event, plan + Copies(slot, i), draws, length, rows, existing, codes, tick)
    {
      ghost var slots := plan + Copies(slot, i);
      assert plan + Copies(slot, i + 1) == slots + [slot];
      ok, rows, existing, tick, codes := AppendRow(event, slot, draws, length, rows, existing, tick, slots, codes);
      if !ok {
        CopiesAre(slot, i);
        CopiesAre(slot, n);
        NoneStays(draws, length, |slots| + 1, |plan + Copies(slot, n)|);
        return;
      }
      i := i + 1;
    }
  }

  /** The rows of one pass, food type by food type. */
  method AppendPass(event: nat, p: Pass, draws: nat -> string, length: nat,
                    rows0: seq<Token>, existing0: set<string>, tick0: nat, ghost plan: seq<Slot>,
                    ghost codes0: seq<string>)
    returns (ok: bool, rows: seq<Token>, existing: set<string>, tick: nat, ghost codes: seq<string>)
    requires Built(event, plan, draws, length, rows0, existing0, codes0, tick0)
    ensures ok ==> Built(event, plan + PassPlan(p), draws, length, rows, existing, codes, tick)
    ensures !ok ==> DrawCodes(draws, length, |plan + PassPlan(p)|).None?
  {
    ghost var veg := plan + Copies(Slot(p.flat, Veg), AtLeastZero(p.veg));
    ghost var jain := veg + Copies(Slot(p.flat, Jain), AtLeastZero(p.jain));
    ghost var kids := jain + Copies(Slot(p.flat, Kids), AtLeastZero(p.kids));
    assert plan + PassPlan(p) == kids;
    ok, rows, existing, tick, codes :=
      AppendRows(event, Slot(p.flat, Veg), AtLeastZero(p.veg), draws, length, rows0, existing0, tick0, plan, codes0);
    if !ok {
      NoneStays(draws, length, |veg|, |kids|);
      return;
    }
    ok, rows, existing, tick, codes :=
      AppendRows(event, Slot(p.flat, Jain), AtLeastZero(p.jain), draws, length, rows, existing, tick, veg, codes);
    if !ok {
      NoneStays(draws, length, |jain|, |kids|);
      return;
    }
    ok, rows, existing, tick, codes :=
      AppendRows(event, Slot(p.flat, Kids), AtLeastZero(p.kids), draws, length, rows, existing, tick, jain, codes);
  }

  lemma {:induction false} PlanGrows(passes: seq<Pass>, event: nat, i: nat)
    requires i <= |passes|
    ensures |Plan(passes[..i], event)| <= |Plan(passes, event)|
    decreases |passes| - i
  {
    if i == |passes| {
      assert passes[..i] == passes;
    } else {
      assert passes[..i + 1][..i] == passes[..i];
      PlanGrows(passes, event, i + 1);
    }
  }

  class Desk {
    var passes: seq<Pass>
    var tokens: seq<Token>
    var counters: map<nat, Counter>
    var audits: seq<Audit>

    ghost function Abs(): Db
      reads this
    {
      Db(passes, tokens, counters, audits)
    }

    constructor ()
      ensures Abs() == EmptyDb
    {
      passes, tokens, counters, audits := [], [], map[], [];
    }

    method GenerateTokensForEvent(event: nat, length: int, draws: nat -> string, gate: Gate) returns (outcome: Outcome)
      modifies this
      ensures (Abs(), outcome) == Generate(old(Abs()), event, length, draws, gate)
    {
      if length < MIN_TOKEN_LENGTH {
        return Refused(TooShort);
      }
      if gate == Denied {
        return Refused(NotPermitted);
      }
      if exists i :: 0 <= i < |tokens| && tokens[i].event == event {
        return Refused(AlreadyGenerated);
      }
      var rows: seq<Token>, existing: set<string>, tick: nat := [], {}, 0;
      ghost var codes: seq<string> := [];
      var i := 0;
      while i < |passes|
        invariant i <= |passes| && Abs() == old(Abs())
        invariant Built(event, Plan(passes[..i], event), draws, length, rows, existing, codes, tick)
      {
        assert passes[..i + 1][..i] == passes[..i];
        if passes[i].event == event && passes[i].participating {
          var ok;
          ok, rows, existing, tick, codes :=
            AppendPass(event, passes[i], draws, length, rows, existing, tick, Plan(passes[..i], event), codes);
          if !ok {
            PlanGrows(passes, event, i + 1);
            NoneStays(draws, length, |Plan(passes[..i + 1], event)|, |Plan(passes, event)|);
            return Refused(NoUniqueCode);
          }
        }
        i := i + 1;
      }
      assert passes[..i] == passes;
      if rows != [] && length > CODE_COLUMN_LENGTH {
        return Refused(CodesTooLong);
      }
      tokens := tokens + rows;
      audits := audits + [GeneratedTokens(event, |rows|)];
      outcome := Done;
    }

    method AddOrUpdatePass(event: nat, flat: nat, veg: int, jain: int, kids: int, gate: Gate) returns (outcome: Outcome)
      modifies this`passes
      ensures (Abs(), outcome) == AddPass(old(Abs()), event, flat, veg, jain, kids, gate)
    {
      if gate == Denied {
        return Refused(NotPermitted);
      }
      if veg + jain + kids <= 0 {
        return Refused(NothingBooked);
      }
      passes := SetPass(passes, Pass(event, flat, veg, jain, kids, true));
      outcome := Done;
    }

    method MarkNotParticipating(event: nat, flat: nat, gate: Gate) returns (outcome: Outcome)
      modifies this`passes
      ensures (Abs(), outcome) == OptOut(old(Abs()), event, flat, gate)
    {
      if gate == Denied {
        return Refused(NotPermitted);
      }
      passes := SetPass(passes, Pass(event, flat, 0, 0, 0, false));
      outcome := Done;
    }

    method OpenFoodCounter(event: nat, now: int, minutes: int, gate: Gate) returns (outcome: Outcome)
      modifies this`counters
      ensures (Abs(), outcome) == OpenCounter(old(Abs()), event, now, minutes, gate)
    {
      if gate == Denied {
        return Refused(NotPermitted);
      }
      counters := counters[event := Counter(true, now + minutes * MINUTE)];
      outcome := Done;
    }

    /** Refuses unless the counter is open, closing it when its time is over. */
    method EnsureCounterOpen(event: nat, now: int) returns (refusal: Option<Refusal>)
      modifies this`counters, this`audits
      ensures (Abs(), refusal) == CheckCounter(old(Abs()), event, now)
    {
      if event !in counters || !counters[event].isOpen {
        return Some(CounterClosed);
      }
      if now > counters[event].closesAt {
        counters := counters[event := counters[event].(isOpen := false)];
        audits := audits + [AutoClosed(event)];
        return Some(ServiceEnded);
      }
      refusal := None;
    }

    /** Counts the failures already on file, before the new one is flushed. */
    method RecordFailedTokenAttempt(event: nat, actor: nat, how: ServeMethod, now: int)
      modifies this`audits
      ensures audits == old(audits) + [Guess(event, actor, how, now,
                FailureCount(old(audits), event, actor, how, now - BURST_WINDOW) >= BURST_THRESHOLD)]
    {
      var failed := 0;
      var i := 0;
      while i < |audits|
        invariant i <= |audits| && audits == old(audits)
        invariant failed == FailureCount(audits[..i], event, actor, how, now - BURST_WINDOW)
      {
        if CountsAsFailure(audits[i], event, actor, how, now - BURST_WINDOW) {
          failed := failed + 1;
        }
        assert audits[..i + 1][..i] == audits[..i];
        i := i + 1;
      }
      assert audits[..i] == audits;
      audits := audits + [Guess(event, actor, how, now, failed >= BURST_THRESHOLD)];
    }

    method VerifyAndServeToken(event: nat, rawCode: string, rawMethod: string, actor: nat, now: int, gate: Gate)
      returns (outcome: Outcome)
      modifies this
      ensures (Abs(), outcome) == Verify(old(Abs()), event, rawCode, rawMethod, actor, now, gate)
    {
      var how := ParseMethod(rawMethod);
      if how.None? {
        return Refused(InvalidMethod);
      }
      var code := Normalize(rawCode);
      if !WellFormedCode(code) {
        return Refused(InvalidToken);
      }
      if gate == Denied {
        return Refused(NotPermitted);
      }
      var closed := EnsureCounterOpen(event, now);
      if closed.Some? {
        return Refused(closed.value);
      }
      if Locked(audits, event, actor, now) {
        audits := audits + [LockedOut(event, actor, how.value, now)];
        return Refused(TooManyFailures);
      }
      var found := FindToken(tokens, event, code);
      if found.None? {
        RecordFailedTokenAttempt(event, actor, how.value, now);
        return Refused(UnknownToken);
      }
      var token := tokens[found.value];
      if token.served.Some? {
        audits := audits + [AlreadyServed(found.value, actor, how.value, now, Some(token.served.value.how))];
        return Refused(TokenUsed);
      }
      tokens := tokens[found.value := token.(served := Some(Serving(now, how.value, actor)))];
      audits := audits + [ServedToken(event, found.value, actor, how.value, now)];
      outcome := Served(found.value);
    }

    method ServeByFlatLookup(event: nat, flat: nat, actor: nat, now: int, gate: Gate) returns (outcome: Outcome)
      modifies this
      ensures (Abs(), outcome) == FlatServe(old(Abs()), event, flat, actor, now, gate)
    {
      if gate == Denied {
        return Refused(NotPermitted);
      }
      var closed := EnsureCounterOpen(event, now);
      if closed.Some? {
        return Refused(closed.value);
      }
      var waiting := FirstWaiting(tokens, event, flat);
      if waiting.Some? {
        outcome := VerifyAndServeToken(event, tokens[waiting.value].code, "FLAT_LOOKUP", actor, now,
                                       if gate == Permitted then Permitted else Denied);
        return;
      }
      var entitled := Entitled(passes, event, flat);
      var served := ServedOf(tokens, event, flat) + FallbacksAnywhere(audits, flat);
      if entitled - served <= 0 {
        return Refused(NoEntitlement);
      }
      audits := audits + [ServedWithoutToken(event, flat, actor, now)];
      outcome := FellBack;
    }
  }
}
