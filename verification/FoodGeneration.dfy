/** Token generation is exact: as many tokens as booked, distinct codes that the counters accept, and
    at most one non-empty generation per event. */
module FoodGeneration {
  import opened Options
  import opened Text
  import opened FoodModel

  // ---------------------------------------------------------------- codes

  ghost predicate LegalDraws(draws: nat -> string, length: nat) {
    forall t: nat :: IsDraw(draws(t), length)
  }

  lemma AlphabetChar(c: char)
    requires c in TOKEN_ALPHABET
    ensures 'A' <= c <= 'Z' || '2' <= c <= '9'
    ensures !IsSpace(c) && UpperChar(c) == c
  {
  }

  /** A generated code of at least 8 characters is unchanged by strip and upper, and passes the format
      check at the counter exactly when it has at most 20 characters. */
  lemma {:induction false} GeneratedCodePassesIff(code: string, length: nat)
    requires IsDraw(code, length) && length >= MIN_TOKEN_LENGTH
    ensures Normalize(code) == code
    ensures WellFormedCode(Normalize(code)) <==> length <= 20
  {
    forall i | 0 <= i < |code|
      ensures UpperChar(code[i]) == code[i] && !IsSpace(code[i]) && ('A' <= code[i] <= 'Z' || '2' <= code[i] <= '9')
    {
      AlphabetChar(code[i]);
    }
    assert Strip(code) == code;
    assert Upper(code) == code;
  }

  predicate Distinct(codes: seq<string>) {
    forall i, j :: 0 <= i < j < |codes| ==> codes[i] != codes[j]
  }

  lemma {:induction false} DrawnCodes(draws: nat -> string, length: nat, n: nat)
    requires LegalDraws(draws, length)
    ensures var r := DrawCodes(draws, length, n);
            r.Some? ==>
              && |r.value.0| == n && Distinct(r.value.0)
              && forall i :: 0 <= i < n ==> IsDraw(r.value.0[i], length)
  {
    if n > 0 {
      DrawnCodes(draws, length, n - 1);
      var r := DrawCodes(draws, length, n);
      if r.Some? {
        var codes := DrawCodes(draws, length, n - 1).value.0;
        forall i, j | 0 <= i < j < n ensures r.value.0[i] != r.value.0[j] {
          if j == n - 1 { assert r.value.0[i] in codes; }
        }
      }
    }
  }

  lemma {:induction false} NoneStays(draws: nat -> string, length: nat, k: nat, n: nat)
    requires k <= n && DrawCodes(draws, length, k).None?
    ensures DrawCodes(draws, length, n).None?
  {
    if k < n { NoneStays(draws, length, k, n - 1); }
  }

  // ---------------------------------------------------------------- counting

  /** The tokens of one flat, event and food type. */
  function TypeCount(tokens: seq<Token>, event: nat, flat: nat, t: FoodType): nat {
    if tokens == [] then 0
    else
      var k := tokens[|tokens| - 1];
      TypeCount(tokens[..|tokens| - 1], event, flat, t) +
      (if k.event == event && k.flat == flat && k.foodType == t then 1 else 0)
  }

  function SlotCount(slots: seq<Slot>, s: Slot): nat {
    if slots == [] then 0
    else SlotCount(slots[..|slots| - 1], s) + (if slots[|slots| - 1] == s then 1 else 0)
  }

  lemma {:induction false} SlotCountConcat(a: seq<Slot>, b: seq<Slot>, s: Slot)
    ensures SlotCount(a + b, s) == SlotCount(a, s) + SlotCount(b, s)
  {
    if b == [] {
      assert a + b == a;
    } else {
      assert (a + b)[..|a + b| - 1] == a + b[..|b| - 1];
      SlotCountConcat(a, b[..|b| - 1], s);
    }
  }

  lemma {:induction false} SlotCountCopies(c: Slot, n: nat, s: Slot)
    ensures SlotCount(Copies(c, n), s) == if c == s then n else 0
  {
    if n > 0 {
      SlotCountCopies(c, n - 1, s);
      assert Copies(c, n)[..|Copies(c, n)| - 1] == Copies(c, n - 1);
    }
  }

  lemma SlotCountPass(p: Pass, s: Slot)
    ensures SlotCount(PassPlan(p), s) == if p.flat == s.flat then AtLeastZero(CountFor(p, s.foodType)) else 0
  {
    var veg, jain, kids := Slot(p.flat, Veg), Slot(p.flat, Jain), Slot(p.flat, Kids);
    var a, b := Copies(veg, AtLeastZero(p.veg)), Copies(jain, AtLeastZero(p.jain));
    var c := Copies(kids, AtLeastZero(p.kids));
    SlotCountConcat(a + b, c, s);
    SlotCountConcat(a, b, s);
    SlotCountCopies(veg, AtLeastZero(p.veg), s);
    SlotCountCopies(jain, AtLeastZero(p.jain), s);
    SlotCountCopies(kids, AtLeastZero(p.kids), s);
  }

  lemma {:induction false} CopiesAre(s: Slot, n: nat)
    ensures |Copies(s, n)| == n && forall i :: 0 <= i < n ==> Copies(s, n)[i] == s
  {
    if n > 0 { CopiesAre(s, n - 1); }
  }

  /** A pass's slots: first the veg plates, then the jain, then the kids', a negative count being none. */
  lemma PassPlanIs(p: Pass, i: nat)
    requires i < |PassPlan(p)|
    ensures var veg, jain := (if p.veg > 0 then p.veg else 0), (if p.jain > 0 then p.jain else 0);
            && |PassPlan(p)| == veg + jain + (if p.kids > 0 then p.kids else 0)
            && PassPlan(p)[i] == Slot(p.flat, if i < veg then Veg else if i < veg + jain then Jain else Kids)
  {
    CopiesAre(Slot(p.flat, Veg), AtLeastZero(p.veg));
    CopiesAre(Slot(p.flat, Jain), AtLeastZero(p.jain));
    CopiesAre(Slot(p.flat, Kids), AtLeastZero(p.kids));
  }

  /** One row per event and flat, as the table's unique constraint has it. */
  predicate UniquePasses(passes: seq<Pass>) {
    forall i, j :: 0 <= i < j < |passes| ==> !(passes[i].event == passes[j].event && passes[i].flat == passes[j].flat)
  }

  /** What a flat has booked of a food type at an event. */
  predicate Booked(passes: seq<Pass>, event: nat, flat: nat, t: FoodType, n: nat) {
    if exists i :: 0 <= i < |passes| && Participates(passes[i], event) && passes[i].flat == flat
    then exists i :: 0 <= i < |passes| && Participates(passes[i], event) && passes[i].flat == flat
                     && n == AtLeastZero(CountFor(passes[i], t))
    else n == 0
  }

  lemma {:induction false} PlanBooks(passes: seq<Pass>, event: nat, s: Slot)
    requires UniquePasses(passes)
    ensures Booked(passes, event, s.flat, s.foodType, SlotCount(Plan(passes, event), s))
  {
    if passes != [] {
      var n := |passes| - 1;
      var p := passes[n];
      PlanBooks(passes[..n], event, s);
      SlotCountConcat(Plan(passes[..n], event), PassPlan(p), s);
      SlotCountPass(p, s);
      assert forall i :: 0 <= i < n ==> passes[..n][i] == passes[i];
      if Participates(p, event) && p.flat == s.flat {
        assert forall i :: 0 <= i < n ==> !(Participates(passes[i], event) && passes[i].flat == s.flat);
        assert SlotCount(Plan(passes[..n], event), s) == 0;
      }
    }
  }

  lemma {:induction false} TypeCountNew(event: nat, slots: seq<Slot>, codes: seq<string>, flat: nat, t: FoodType)
    requires |slots| == |codes|
    ensures TypeCount(NewTokens(event, slots, codes), event, flat, t) == SlotCount(slots, Slot(flat, t))
  {
    if slots != [] {
      var n := |slots| - 1;
      TypeCountNew(event, slots[..n], codes[..n], flat, t);
      assert NewTokens(event, slots, codes)[..n] == NewTokens(event, slots[..n], codes[..n]);
    }
  }

  // ---------------------------------------------------------------- one generation

  /** A successful generation only appends: unserved tokens of the event, with distinct codes that are
      legal draws and that every counter accepts as they are, and for each flat and food type exactly
      as many as its participating pass books. */
  lemma GenerationIsExact(db: Db, event: nat, length: nat, draws: nat -> string, gate: Gate)
    requires LegalDraws(draws, length) && UniquePasses(db.passes)
    requires Generate(db, event, length, draws, gate).1 == Done
    ensures var r := Generate(db, event, length, draws, gate).0;
            && length >= MIN_TOKEN_LENGTH
            && db.tokens <= r.tokens && r.passes == db.passes
            && var added := r.tokens[|db.tokens|..];
               && (forall k :: 0 <= k < |added| ==>
                     && added[k].event == event && added[k].served.None? && IsDraw(added[k].code, length)
                     && Normalize(added[k].code) == added[k].code && WellFormedCode(added[k].code))
               && (forall j, k :: 0 <= j < k < |added| ==> added[j].code != added[k].code)
               && (forall flat, t :: Booked(db.passes, event, flat, t, TypeCount(added, event, flat, t)))
  {
    var plan := Plan(db.passes, event);
    DrawnCodes(draws, length, |plan|);
    DrawCodesLength(draws, length, |plan|);
    var codes := DrawCodes(draws, length, |plan|).value.0;
    var added := NewTokens(event, plan, codes);
    assert Generate(db, event, length, draws, gate).0.tokens[|db.tokens|..] == added;
    forall k | 0 <= k < |added| ensures Normalize(added[k].code) == added[k].code && WellFormedCode(added[k].code) {
      assert IsDraw(codes[k], length);
      GeneratedCodePassesIff(codes[k], length);
    }
    forall flat, t ensures Booked(db.passes, event, flat, t, TypeCount(added, event, flat, t)) {
      PlanBooks(db.passes, event, Slot(flat, t));
      TypeCountNew(event, plan, codes, flat, t);
    }
  }

  // ---------------------------------------------------------------- at most one per event

  function NonEmptyGenerations(audits: seq<Audit>, event: nat): nat {
    if audits == [] then 0
    else
      var a := audits[|audits| - 1];
      NonEmptyGenerations(audits[..|audits| - 1], event) +
      (if a.GeneratedTokens? && a.event == event && a.count > 0 then 1 else 0)
  }

  lemma NonEmptyAppend(audits: seq<Audit>, a: Audit, event: nat)
    ensures NonEmptyGenerations(audits + [a], event) ==
            NonEmptyGenerations(audits, event)
                + (if a.GeneratedTokens? && a.event == event && a.count > 0 then 1 else 0)
  {
    assert (audits + [a])[..|audits|] == audits;
  }

  predicate SameEvents(a: seq<Token>, b: seq<Token>) {
    |a| == |b| && forall i :: 0 <= i < |a| ==> a[i].event == b[i].event && a[i].code == b[i].code
  }

  /** Each token in place, and at most one more audit row, which is not about a generation. */
  predicate KeepsTokens(db: Db, r: Db) {
    && SameEvents(r.tokens, db.tokens)
    && (r.audits == db.audits ||
        (|r.audits| == |db.audits| + 1 && r.audits[..|db.audits|] == db.audits
            && !r.audits[|db.audits|].GeneratedTokens?))
  }

  lemma VerifyKeepsTokens(db: Db, event: nat, code: string, how: string, actor: nat, now: int, gate: Gate)
    ensures KeepsTokens(db, Verify(db, event, code, how, actor, now, gate).0)
  {
  }

  lemma OtherOpsKeepTokens(db: Db, op: Op)
    requires !op.GenerateOp?
    ensures KeepsTokens(db, Apply(db, op).0)
  {
    match op
    case VerifyOp(event, code, how, actor, now, gate) => VerifyKeepsTokens(db, event, code, how, actor, now, gate);
    case FlatOp(event, flat, actor, now, gate) =>
      var waiting := FirstWaiting(db.tokens, event, flat);
      if waiting.Some? {
        VerifyKeepsTokens(db, event, db.tokens[waiting.value].code, "FLAT_LOOKUP", actor, now,
                          if gate == Permitted then Permitted else Denied);
      }
    case _ =>
  }

  /** In every run an event has at most one generation that made tokens, and it has one exactly when
      the event has tokens; any later generation for it is refused and changes nothing. */
  lemma {:induction false} GeneratedOnce(ops: seq<Op>, event: nat)
    ensures var db := Run(ops);
            && NonEmptyGenerations(db.audits, event) == (if HasTokens(db, event) then 1 else 0)
            && (forall length, draws, gate :: HasTokens(db, event) ==>
                  Generate(db, event, length, draws, gate).0 == db
                      && Generate(db, event, length, draws, gate).1.Refused?)
  {
    if ops != [] {
      var db := Run(ops[..|ops| - 1]);
      GeneratedOnce(ops[..|ops| - 1], event);
      match ops[|ops| - 1]
      case GenerateOp(e, length, draws, gate) => GenerateCounts(db, e, length, draws, gate, event);
      case op =>
        OtherOpsKeepTokens(db, op);
        SameEventsSameTokens(db, Apply(db, op).0, event);
    }
  }

  lemma SameEventsSameTokens(db: Db, r: Db, event: nat)
    requires KeepsTokens(db, r)
    ensures HasTokens(r, event) <==> HasTokens(db, event)
    ensures NonEmptyGenerations(r.audits, event) == NonEmptyGenerations(db.audits, event)
  {
    if HasTokens(db, event) {
      var i :| 0 <= i < |db.tokens| && db.tokens[i].event == event;
      assert r.tokens[i].event == event;
    }
    if r.audits != db.audits {
      assert r.audits == db.audits + [r.audits[|db.audits|]];
      NonEmptyAppend(db.audits, r.audits[|db.audits|], event);
    }
  }

  lemma GenerateCounts(db: Db, e: nat, length: int, draws: nat -> string, gate: Gate, event: nat)
    requires NonEmptyGenerations(db.audits, event) == (if HasTokens(db, event) then 1 else 0)
    ensures var r := Generate(db, e, length, draws, gate).0;
            NonEmptyGenerations(r.audits, event) == (if HasTokens(r, event) then 1 else 0)
  {
    var (r, outcome) := Generate(db, e, length, draws, gate);
    if outcome == Done {
      var plan := Plan(db.passes, e);
      DrawCodesLength(draws, length, |plan|);
      var codes := DrawCodes(draws, length, |plan|).value.0;
      AppendedCounts(db, e, NewTokens(e, plan, codes), r, event);
    }
  }

  lemma AppendedCounts(db: Db, e: nat, added: seq<Token>, r: Db, event: nat)
    requires NonEmptyGenerations(db.audits, event) == (if HasTokens(db, event) then 1 else 0)
    requires !HasTokens(db, e) && forall i :: 0 <= i < |added| ==> added[i].event == e
    requires r.tokens == db.tokens + added && r.audits == db.audits + [GeneratedTokens(e, |added|)]
    ensures NonEmptyGenerations(r.audits, event) == (if HasTokens(r, event) then 1 else 0)
  {
    NonEmptyAppend(db.audits, GeneratedTokens(e, |added|), event);
    if HasTokens(db, event) {
      var i :| 0 <= i < |db.tokens| && db.tokens[i].event == event;
      assert r.tokens[i].event == event;
    } else if e == event && added != [] {
      assert r.tokens[|db.tokens|].event == event;
    } else {
      assert forall i :: 0 <= i < |r.tokens| ==> r.tokens[i].event != event;
    }
  }
}
