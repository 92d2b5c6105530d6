/** Two summaries computed independently: the per-flat view and the committee's dashboard. */
module FoodSummary {
  import opened FoodModel
  import opened FoodGeneration
  import opened FoodEntitlement

  datatype Row = Row(total: int, served: int, remaining: int)

  function Max0(n: int): int {
    if n < 0 then 0 else n
  }

  // ---------------------------------------------------------------- the per-flat view

  function TypeServed(tokens: seq<Token>, event: nat, flat: nat, t: FoodType): nat {
    if tokens == [] then 0
    else
      var k := tokens[|tokens| - 1];
      TypeServed(tokens[..|tokens| - 1], event, flat, t)
          + (if IsHandedOut(k, event, flat) && k.foodType == t then 1 else 0)
  }

  /** member_pass_status: its totals, and its row for a food type. */
  function FlatTotals(db: Db, event: nat, flat: nat): Row {
    var fallback := FallbacksAnywhere(db.audits, flat);
    var total := TokensOf(db.tokens, event, flat) + fallback;
    var served := ServedOf(db.tokens, event, flat) + fallback;
    Row(total, served, Max0(total - served))
  }

  function FlatType(db: Db, event: nat, flat: nat, t: FoodType): Row {
    var total, served := TypeCount(db.tokens, event, flat, t), TypeServed(db.tokens, event, flat, t);
    Row(total, served, total - served)
  }

  // ---------------------------------------------------------------- the dashboard

  /** The flats of the event's tokens. */
  function TokenFlats(tokens: seq<Token>, event: nat): seq<nat> {
    if tokens == [] then []
    else
      var k := tokens[|tokens| - 1];
      var before := TokenFlats(tokens[..|tokens| - 1], event);
      if k.event == event then before + [k.flat] else before
  }

  function ServedFlats(tokens: seq<Token>, event: nat): seq<nat> {
    if tokens == [] then []
    else
      var k := tokens[|tokens| - 1];
      var before := ServedFlats(tokens[..|tokens| - 1], event);
      if k.event == event && k.served.Some? then before + [k.flat] else before
  }

  function TypeFlats(tokens: seq<Token>, event: nat, t: FoodType): seq<nat> {
    if tokens == [] then []
    else
      var k := tokens[|tokens| - 1];
      var before := TypeFlats(tokens[..|tokens| - 1], event, t);
      if k.event == event && k.foodType == t then before + [k.flat] else before
  }

  function TypeServedFlats(tokens: seq<Token>, event: nat, t: FoodType): seq<nat> {
    if tokens == [] then []
    else
      var k := tokens[|tokens| - 1];
      var before := TypeServedFlats(tokens[..|tokens| - 1], event, t);
      if k.event == event && k.served.Some? && k.foodType == t then before + [k.flat] else before
  }

  /** The flats with a token or a pass for the event. */
  function Flats(db: Db, event: nat): set<nat> {
    (set f | f in TokenFlats(db.tokens, event)) + (set p | p in db.passes && p.event == event :: p.flat)
  }

  /** The serves without a token, at whichever event, of the given flats. */
  function FallbackFlats(audits: seq<Audit>, flats: set<nat>): seq<nat> {
    if audits == [] then []
    else
      var a := audits[|audits| - 1];
      var before := FallbackFlats(audits[..|audits| - 1], flats);
      if a.ServedWithoutToken? && a.flat in flats then before + [a.flat] else before
  }

  function Dashboard(db: Db, event: nat): Row {
    var fallback := |FallbackFlats(db.audits, Flats(db, event))|;
    var total := |TokenFlats(db.tokens, event)| + fallback;
    var served := |ServedFlats(db.tokens, event)| + fallback;
    Row(total, served, Max0(total - served))
  }

  function DashboardType(db: Db, event: nat, t: FoodType): Row {
    var total, served := |TypeFlats(db.tokens, event, t)|, |TypeServedFlats(db.tokens, event, t)|;
    Row(total, served, total - served)
  }

  function DashboardFallback(db: Db, event: nat): Row {
    var n := |FallbackFlats(db.audits, Flats(db, event))|;
    Row(n, n, 0)
  }

  // ---------------------------------------------------------------- sums over flats

  function Plus(a: Row, b: Row): Row {
    Row(a.total + b.total, a.served + b.served, a.remaining + b.remaining)
  }

  function SumTotals(db: Db, event: nat, order: seq<nat>): Row {
    if order == [] then Row(0, 0, 0) else Plus(FlatTotals(db, event, order[0]), SumTotals(db, event, order[1..]))
  }

  function SumType(db: Db, event: nat, order: seq<nat>, t: FoodType): Row {
    if order == [] then Row(0, 0, 0) else Plus(FlatType(db, event, order[0], t), SumType(db, event, order[1..], t))
  }

  function SumFallbacks(db: Db, order: seq<nat>): nat {
    if order == [] then 0 else FallbacksAnywhere(db.audits, order[0]) + SumFallbacks(db, order[1..])
  }

  function Occurrences(keys: seq<nat>, f: nat): nat {
    if keys == [] then 0
    else Occurrences(keys[..|keys| - 1], f) + (if keys[|keys| - 1] == f then 1 else 0)
  }

  function SumOccurrences(order: seq<nat>, keys: seq<nat>): nat {
    if order == [] then 0 else Occurrences(keys, order[0]) + SumOccurrences(order[1..], keys)
  }

  ghost predicate Enumerates(order: seq<nat>, flats: set<nat>) {
    && (forall f :: f in order <==> f in flats)
    && (forall i, j :: 0 <= i < j < |order| ==> order[i] != order[j])
  }

  lemma {:induction false} SumOccurrencesAppend(order: seq<nat>, keys: seq<nat>, k: nat)
    requires forall i, j :: 0 <= i < j < |order| ==> order[i] != order[j]
    ensures SumOccurrences(order, keys + [k]) == SumOccurrences(order, keys) + (if k in order then 1 else 0)
  {
    assert (keys + [k])[..|keys|] == keys;
    if order != [] { SumOccurrencesAppend(order[1..], keys, k); }
  }

  /** Counting flat by flat counts everything once. */
  lemma {:induction false} PartitionSum(order: seq<nat>, keys: seq<nat>)
    requires forall i, j :: 0 <= i < j < |order| ==> order[i] != order[j]
    requires forall k :: k in keys ==> k in order
    ensures SumOccurrences(order, keys) == |keys|
  {
    if keys == [] {
      NoOccurrences(order);
    } else {
      var n := |keys| - 1;
      assert keys == keys[..n] + [keys[n]];
      PartitionSum(order, keys[..n]);
      SumOccurrencesAppend(order, keys[..n], keys[n]);
    }
  }

  lemma {:induction false} NoOccurrences(order: seq<nat>)
    ensures SumOccurrences(order, []) == 0
  {
    if order != [] { NoOccurrences(order[1..]); }
  }

  // ---------------------------------------------------------------- each count, by flats

  lemma OccurrencesAppend(keys: seq<nat>, k: nat, f: nat)
    ensures Occurrences(keys + [k], f) == Occurrences(keys, f) + (if k == f then 1 else 0)
  {
    assert (keys + [k])[..|keys|] == keys;
  }

  lemma {:induction false} TokenCounts(tokens: seq<Token>, event: nat, f: nat)
    ensures TokensOf(tokens, event, f) == Occurrences(TokenFlats(tokens, event), f)
    ensures ServedOf(tokens, event, f) == Occurrences(ServedFlats(tokens, event), f)
  {
    if tokens != [] {
      var n := |tokens| - 1;
      TokenCounts(tokens[..n], event, f);
      OccurrencesAppend(TokenFlats(tokens[..n], event), tokens[n].flat, f);
      OccurrencesAppend(ServedFlats(tokens[..n], event), tokens[n].flat, f);
    }
  }

  lemma {:induction false} TypeCounts(tokens: seq<Token>, event: nat, f: nat, t: FoodType)
    ensures TypeCount(tokens, event, f, t) == Occurrences(TypeFlats(tokens, event, t), f)
  {
    if tokens != [] {
      var n := |tokens| - 1;
      TypeCounts(tokens[..n], event, f, t);
      OccurrencesAppend(TypeFlats(tokens[..n], event, t), tokens[n].flat, f);
    }
  }

  lemma {:induction false} TypeServedCounts(tokens: seq<Token>, event: nat, f: nat, t: FoodType)
    ensures TypeServed(tokens, event, f, t) == Occurrences(TypeServedFlats(tokens, event, t), f)
  {
    if tokens != [] {
      var n := |tokens| - 1;
      TypeServedCounts(tokens[..n], event, f, t);
      OccurrencesAppend(TypeServedFlats(tokens[..n], event, t), tokens[n].flat, f);
    }
  }

  lemma {:induction false} FallbackCounts(audits: seq<Audit>, flats: set<nat>, f: nat)
    requires f in flats
    ensures FallbacksAnywhere(audits, f) == Occurrences(FallbackFlats(audits, flats), f)
  {
    if audits != [] {
      var n := |audits| - 1;
      FallbackCounts(audits[..n], flats, f);
      if audits[n].ServedWithoutToken? {
        OccurrencesAppend(FallbackFlats(audits[..n], flats), audits[n].flat, f);
      }
    }
  }

  lemma {:induction false} KeysAreTokenFlats(tokens: seq<Token>, event: nat, t: FoodType)
    ensures forall f :: f in ServedFlats(tokens, event) ==> f in TokenFlats(tokens, event)
    ensures forall f :: f in TypeFlats(tokens, event, t) ==> f in TokenFlats(tokens, event)
    ensures forall f :: f in TypeServedFlats(tokens, event, t) ==> f in TokenFlats(tokens, event)
  {
    if tokens != [] { KeysAreTokenFlats(tokens[..|tokens| - 1], event, t); }
  }

  lemma {:induction false} KeysAreGivenFlats(audits: seq<Audit>, flats: set<nat>)
    ensures forall f :: f in FallbackFlats(audits, flats) ==> f in flats
  {
    if audits != [] { KeysAreGivenFlats(audits[..|audits| - 1], flats); }
  }

  lemma {:induction false} TypesMakeTotals(tokens: seq<Token>, event: nat)
    ensures |TokenFlats(tokens, event)| ==
            |TypeFlats(tokens, event, Veg)| + |TypeFlats(tokens, event, Jain)| + |TypeFlats(tokens, event, Kids)|
    ensures |ServedFlats(tokens, event)| ==
            |TypeServedFlats(tokens, event, Veg)| + |TypeServedFlats(tokens, event, Jain)|
                + |TypeServedFlats(tokens, event, Kids)|
    ensures |ServedFlats(tokens, event)| <= |TokenFlats(tokens, event)|
  {
    if tokens != [] {
      TypesMakeTotals(tokens[..|tokens| - 1], event);
      match tokens[|tokens| - 1].foodType case Veg => case Jain => case Kids =>
    }
  }

  // ---------------------------------------------------------------- agreement

  lemma {:induction false} SumTotalsAre(db: Db, event: nat, order: seq<nat>, flats: set<nat>)
    requires forall f :: f in order ==> f in flats
    ensures var fallback := SumOccurrences(order, FallbackFlats(db.audits, flats));
            var r := SumTotals(db, event, order);
            && r.total == SumOccurrences(order, TokenFlats(db.tokens, event)) + fallback
            && r.served == SumOccurrences(order, ServedFlats(db.tokens, event)) + fallback
            && r.remaining == r.total - r.served
            && SumFallbacks(db, order) == fallback
  {
    if order != [] {
      SumTotalsAre(db, event, order[1..], flats);
      TokenCounts(db.tokens, event, order[0]);
      FallbackCounts(db.audits, flats, order[0]);
      ServedAtMostTokens(db.tokens, event, order[0]);
    }
  }

  lemma {:induction false} SumTypeIs(db: Db, event: nat, order: seq<nat>, t: FoodType)
    ensures var r := SumType(db, event, order, t);
            && r.total == SumOccurrences(order, TypeFlats(db.tokens, event, t))
            && r.served == SumOccurrences(order, TypeServedFlats(db.tokens, event, t))
            && r.remaining == r.total - r.served
  {
    if order != [] {
      SumTypeIs(db, event, order[1..], t);
      TypeCounts(db.tokens, event, order[0], t);
      TypeServedCounts(db.tokens, event, order[0], t);
    }
  }

  /** The dashboard's total, served and remaining plates are the sums of the per-flat views over all
      flats with a token or a pass, in whichever order they are taken; so is each food type's row. */
  lemma DashboardAgreesWithFlats(db: Db, event: nat, order: seq<nat>)
    requires Enumerates(order, Flats(db, event))
    ensures Dashboard(db, event) == SumTotals(db, event, order)
    ensures forall t :: DashboardType(db, event, t) == SumType(db, event, order, t)
    ensures DashboardFallback(db, event).total == SumFallbacks(db, order)
  {
    var flats := Flats(db, event);
    forall t ensures DashboardType(db, event, t) == SumType(db, event, order, t) {
      KeysAreTokenFlats(db.tokens, event, t);
      SumTypeIs(db, event, order, t);
      PartitionSum(order, TypeFlats(db.tokens, event, t));
      PartitionSum(order, TypeServedFlats(db.tokens, event, t));
    }
    KeysAreTokenFlats(db.tokens, event, Veg);
    KeysAreGivenFlats(db.audits, flats);
    SumTotalsAre(db, event, order, flats);
    PartitionSum(order, TokenFlats(db.tokens, event));
    PartitionSum(order, ServedFlats(db.tokens, event));
    PartitionSum(order, FallbackFlats(db.audits, flats));
    TypesMakeTotals(db.tokens, event);
  }

  /** The dashboard's rows by type, the fallback row among them, add up to its totals, and neither view
      ever clips its remaining plates at zero. */
  lemma RowsAddUpWithoutClipping(db: Db, event: nat, flat: nat)
    ensures Plus(Plus(DashboardType(db, event, Veg), DashboardType(db, event, Jain)),
                 Plus(DashboardType(db, event, Kids), DashboardFallback(db, event))) == Dashboard(db, event)
    ensures Dashboard(db, event).remaining == Dashboard(db, event).total - Dashboard(db, event).served
    ensures FlatTotals(db, event, flat).remaining
        == FlatTotals(db, event, flat).total - FlatTotals(db, event, flat).served
  {
    TypesMakeTotals(db.tokens, event);
    ServedAtMostTokens(db.tokens, event, flat);
  }
}
