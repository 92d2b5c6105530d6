/** What holds of the ledger over every run. */
module LedgerProperties {
  import opened LedgerModel
  import opened Numerals
  import opened Options
  import opened Text

  // ---------------------------------------------------------------- sponsor codes

  /** Padding with zeros does not change the number read, so codes are told apart for every count,
      past 999 too. */
  lemma SponsorCodeInjective(m: nat, n: nat)
    requires SponsorCode(m) == SponsorCode(n)
    ensures m == n
  {
    assert SponsorCode(m)[3..] == RightJustify(Numeral(m, 10), 3);
    assert SponsorCode(n)[3..] == RightJustify(Numeral(n, 10), 3);
    JustifiedValue(m, 10, 3);
    JustifiedValue(n, 10, 3);
  }

  /** A code is SP- and the number in decimal, with leading zeros only up to three digits. */
  lemma SponsorCodeReads(n: nat)
    ensures var code := SponsorCode(n);
            && |code| >= 6 && code[..3] == "SP-"
            && IsNumeral(code[3..], 10) && Value(code[3..], 10) == n && (code[3] == '0' && n > 0 ==> |code| == 6)
  {
    var digits := Numeral(n, 10);
    NumeralForm(n, 10);
    NumeralRoundTrip(n, 10);
    if |digits| < 3 {
      ZerosInFront(3 - |digits|, digits, 10);
      ZerosLength(3 - |digits|, 10);
    }
    assert SponsorCode(n)[3..] == RightJustify(digits, 3);
  }

  /** The k-th contribution of an event carries the k-th code. */
  predicate Numbered(contributions: seq<Contribution>) {
    forall i :: 0 <= i < |contributions| ==> CarriesNumber(contributions[i], contributions[..i])
  }

  predicate CarriesNumber(c: Contribution, before: seq<Contribution>) {
    c.code == SponsorCode(CountFor(before, c.event) + 1)
  }

  /** The contributions of the event. */
  function PlacesOf(contributions: seq<Contribution>, event: nat): set<nat> {
    set i: nat | i < |contributions| && contributions[i].event == event
  }

  lemma OneMorePlace(contributions: seq<Contribution>, event: nat)
    requires contributions != []
    ensures var n := |contributions| - 1;
            var before := PlacesOf(contributions[..n], event);
            && n !in before
            && PlacesOf(contributions, event) == if contributions[n].event == event then before + {n} else before
  {
  }

  /** The number in a code counts the contributions that the event had before. */
  lemma {:induction false} CountForIs(contributions: seq<Contribution>, event: nat)
    ensures CountFor(contributions, event) == |PlacesOf(contributions, event)|
  {
    if contributions == [] {
      assert PlacesOf(contributions, event) == {};
    } else {
      CountForIs(contributions[..|contributions| - 1], event);
      OneMorePlace(contributions, event);
    }
  }

  lemma {:induction false} CountGrows(contributions: seq<Contribution>, event: nat, i: nat, j: nat)
    requires i < j <= |contributions| && contributions[i].event == event
    ensures CountFor(contributions[..i], event) < CountFor(contributions[..j], event)
    decreases j
  {
    assert contributions[..j][..j - 1] == contributions[..j - 1];
    if i < j - 1 { CountGrows(contributions, event, i, j - 1); }
  }

  lemma NumberedIsDistinct(contributions: seq<Contribution>, i: nat, j: nat)
    requires Numbered(contributions) && i < j < |contributions|
    requires contributions[i].event == contributions[j].event
    ensures contributions[i].code != contributions[j].code
  {
    var event := contributions[i].event;
    assert CarriesNumber(contributions[i], contributions[..i]) && CarriesNumber(contributions[j], contributions[..j]);
    CountGrows(contributions, event, i, j);
    if contributions[i].code == contributions[j].code {
      SponsorCodeInjective(CountFor(contributions[..i], event) + 1, CountFor(contributions[..j], event) + 1);
    }
  }

  lemma NumberedAppend(contributions: seq<Contribution>, c: Contribution)
    requires Numbered(contributions) && CarriesNumber(c, contributions)
    ensures Numbered(contributions + [c])
  {
    var r := contributions + [c];
    forall i | 0 <= i < |r| ensures CarriesNumber(r[i], r[..i]) {
      if i < |contributions| { assert r[..i] == contributions[..i]; } else { assert r[..i] == contributions; }
    }
  }

  lemma ContributionAppends(db: Db, event: nat, given: Option<int>, performer: Option<string>, reason: Option<string>)
    ensures var (r, outcome) := AddContribution(db, event, given, performer, reason);
            && r.refunds == db.refunds
            && if outcome.Coded? then
                 && r.contributions == db.contributions + [Contribution(event, outcome.code, given)]
                 && CarriesNumber(Contribution(event, outcome.code, given), db.contributions)
               else r.contributions == db.contributions
  {
  }

  lemma ContributionKeepsNumbered(db: Db, event: nat, given: Option<int>, performer: Option<string>,
                                  reason: Option<string>)
    requires Numbered(db.contributions)
    ensures var r := AddContribution(db, event, given, performer, reason).0;
            Numbered(r.contributions) && db.contributions <= r.contributions && r.refunds == db.refunds
  {
    var (r, outcome) := AddContribution(db, event, given, performer, reason);
    ContributionAppends(db, event, given, performer, reason);
    if r.contributions != db.contributions {
      NumberedAppend(db.contributions, Contribution(event, outcome.code, given));
    }
  }

  // ---------------------------------------------------------------- refunds

  /** What was refunded against contribution k stays within its amount. */
  predicate Covered(db: Db, k: nat) {
    k < |db.contributions| && db.contributions[k].amount.Some? &&
    Refunded(db.refunds, k) <= db.contributions[k].amount.value
  }

  predicate RefundsCovered(db: Db) {
    forall i :: 0 <= i < |db.refunds| ==> Covered(db, db.refunds[i].contribution)
  }

  lemma RefundedAppend(refunds: seq<Refund>, r: Refund, k: nat)
    ensures Refunded(refunds + [r], k) == Refunded(refunds, k) + (if r.contribution == k then r.amount else 0)
  {
    assert (refunds + [r])[..|refunds|] == refunds;
  }

  lemma StaysCovered(db: Db, added: Refund, r: Db, k: nat)
    requires r.contributions == db.contributions && r.refunds == db.refunds + [added]
    requires k != added.contribution ==> Covered(db, k)
    requires k == added.contribution ==>
               && k < |db.contributions| && db.contributions[k].amount.Some?
               && Refunded(db.refunds, k) + added.amount <= db.contributions[k].amount.value
    ensures Covered(r, k)
  {
    RefundedAppend(db.refunds, added, k);
  }

  lemma RefundAppendCovered(db: Db, added: Refund, r: Db)
    requires RefundsCovered(db) && r.contributions == db.contributions && r.refunds == db.refunds + [added]
    requires added.contribution < |db.contributions| && db.contributions[added.contribution].amount.Some?
    requires Refunded(db.refunds, added.contribution) + added.amount
          <= db.contributions[added.contribution].amount.value
    ensures RefundsCovered(r)
  {
    forall i | 0 <= i < |r.refunds| ensures Covered(r, r.refunds[i].contribution) {
      if i < |db.refunds| { assert Covered(db, db.refunds[i].contribution); }
      StaysCovered(db, added, r, r.refunds[i].contribution);
    }
  }

  /** A granted refund is one more row against the contribution found, and what it grants still fits. */
  lemma RefundAppends(db: Db, event: nat, code: string, amount: int,
                      performer: Option<string>, reason: Option<string>)
    ensures var (r, outcome) := ProcessRefund(db, event, code, amount, performer, reason);
            && r.contributions == db.contributions
            && if outcome == Done then
                 var found := FindContribution(db.contributions, event, code);
                 && found.Some? && db.contributions[found.value].amount.Some?
                 && r.refunds == db.refunds + [Refund(found.value, amount)]
                 && Refunded(db.refunds, found.value) + amount <= db.contributions[found.value].amount.value
               else r.refunds == db.refunds
  {
  }

  lemma RefundKeepsCovered(db: Db, event: nat, code: string, amount: int,
                           performer: Option<string>, reason: Option<string>)
    requires RefundsCovered(db)
    ensures var r := ProcessRefund(db, event, code, amount, performer, reason).0;
            RefundsCovered(r) && r.contributions == db.contributions
  {
    var (r, outcome) := ProcessRefund(db, event, code, amount, performer, reason);
    RefundAppends(db, event, code, amount, performer, reason);
    if outcome == Done {
      RefundAppendCovered(db, Refund(FindContribution(db.contributions, event, code).value, amount), r);
    } else {
      CoveredCarriesOver(db, r);
    }
  }

  // ---------------------------------------------------------------- the rules, and who may override them

  /** The states in which expenses, contributions and refunds are written as a matter of course. */
  predicate OpenForMoney(state: string) {
    state == "ACTIVE" || state == "LOCKED" || state == "EVENT_DAY"
  }

  predicate OfficerRole(role: string) {
    role == "chairman" || role == "secretary" || role == "treasurer"
  }

  predicate Given(s: Option<string>) {
    s.Some? && Strip(s.value) != ""
  }

  /** The performer is a member of the committee, active, and one of its three officers. */
  predicate ActiveOfficer(db: Db, performer: Option<string>) {
    && Given(performer) && performer.value in db.members
    && db.members[performer.value].active && OfficerRole(db.members[performer.value].role)
  }

  lemma RulesAllowIff(kind: Kind, state: string)
    ensures ActionOf(kind) in StateRules(state) <==> OpenForMoney(state)
  {
    match kind
    case ExpenseRow =>
    case ContributionRow =>
    case RefundRow =>
  }

  /** The engine's answer: the state's rules allow the action, an officer overrides them with a reason, or
      it is denied; and an event without a state allows nothing. */
  lemma DecisionIs(db: Db, event: nat, kind: Kind, performer: Option<string>, reason: Option<string>)
    ensures CheckAction(db, event, ActionOf(kind), performer, reason) ==
            if event !in db.states then Denied
            else if OpenForMoney(db.states[event]) then Allowed
            else if ActiveOfficer(db, performer) && Given(reason) then NeedsOverride
            else Denied
  {
    if event in db.states { RulesAllowIff(kind, db.states[event]); }
  }

  // ---------------------------------------------------------------- overrides

  /** The row was written in a state in which that takes an override. */
  predicate Outside(w: Write) {
    !OpenForMoney(w.state)
  }

  /** Rows of whichever entity, or of the given one. */
  predicate Selected(sel: Option<nat>, entity: nat) {
    sel.None? || sel.value == entity
  }

  function AuditCount(audits: seq<Audit>, kind: Kind, sel: Option<nat>, isOverride: bool): nat {
    if audits == [] then 0
    else
      var a := audits[|audits| - 1];
      AuditCount(audits[..|audits| - 1], kind, sel, isOverride) +
      (if a.kind == kind && Selected(sel, a.entity) && a.isOverride == isOverride then 1 else 0)
  }

  function WriteCount(history: seq<Write>, kind: Kind, sel: Option<nat>): nat {
    if history == [] then 0
    else
      var w := history[|history| - 1];
      WriteCount(history[..|history| - 1], kind, sel) + (if w.kind == kind && Selected(sel, w.entity) then 1 else 0)
  }

  function OutsideCount(history: seq<Write>, kind: Kind, sel: Option<nat>): nat {
    if history == [] then 0
    else
      var w := history[|history| - 1];
      OutsideCount(history[..|history| - 1], kind, sel) +
      (if w.kind == kind && Selected(sel, w.entity) && Outside(w) then 1 else 0)
  }

  function ExpenseCount(expenses: seq<Expense>, sel: Option<nat>): nat {
    if expenses == [] then 0
    else ExpenseCount(expenses[..|expenses| - 1], sel) +
         (if Selected(sel, expenses[|expenses| - 1].event) then 1 else 0)
  }

  function OverrideExpenses(expenses: seq<Expense>, sel: Option<nat>): nat {
    if expenses == [] then 0
    else
      var e := expenses[|expenses| - 1];
      OverrideExpenses(expenses[..|expenses| - 1], sel) + (if Selected(sel, e.event) && e.isOverride then 1 else 0)
  }

  /** The rows of a table that audits of the entity are about: all of them, the one contribution or
      refund, or the expenses of the one event. */
  function RowCount(db: Db, kind: Kind, sel: Option<nat>): nat {
    match kind
    case ExpenseRow => ExpenseCount(db.expenses, sel)
    case ContributionRow => Sized(|db.contributions|, sel)
    case RefundRow => Sized(|db.refunds|, sel)
  }

  function Sized(n: nat, sel: Option<nat>): nat {
    if sel.None? then n else if sel.value < n then 1 else 0
  }

  lemma {:induction false} ExpenseCountOfAll(expenses: seq<Expense>)
    ensures ExpenseCount(expenses, None) == |expenses|
  {
    if expenses != [] { ExpenseCountOfAll(expenses[..|expenses| - 1]); }
  }

  /** A row written outside the rules was written by a then-active officer who gave a reason. */
  predicate Vouched(w: Write) {
    Outside(w) ==>
      && w.member.Some? && w.member.value.active && OfficerRole(w.member.value.role)
      && Given(w.reason) && Given(w.performer)
  }

  /** For the selected rows of a kind: as many ordinary audits and writes as rows, and as many override
      audits as writes outside the rules. */
  predicate Balanced(db: Db, kind: Kind, sel: Option<nat>) {
    && AuditCount(db.audits, kind, sel, false) == RowCount(db, kind, sel)
    && WriteCount(db.history, kind, sel) == RowCount(db, kind, sel)
    && AuditCount(db.audits, kind, sel, true) == OutsideCount(db.history, kind, sel)
    && (kind == ExpenseRow ==> OverrideExpenses(db.expenses, sel) == AuditCount(db.audits, kind, sel, true))
  }

  /** The audit rows that a write leaves: an OVERRIDE row naming its performer and reason exactly when it
      is outside the rules, and the ordinary row. */
  function AuditsOfWrite(w: Write): seq<Audit> {
    (if Outside(w) then [Audit(w.kind, w.entity, true, w.performer, w.reason)] else []) +
    [Audit(w.kind, w.entity, false, w.performer, None)]
  }

  function AuditsOf(history: seq<Write>): seq<Audit> {
    if history == [] then [] else AuditsOf(history[..|history| - 1]) + AuditsOfWrite(history[|history| - 1])
  }

  /** The override row is about the write and names whoever made it, and why. */
  predicate Attests(a: Audit, w: Write) {
    a.isOverride && a.kind == w.kind && a.entity == w.entity && a.performer == w.performer && a.reason == w.reason
  }

  /** The write was outside the rules, made by a then-active officer who gave a reason. */
  predicate OfficersOverride(w: Write) {
    Outside(w) && Vouched(w)
  }

  lemma {:induction false} AuditsAttest(history: seq<Write>)
    ensures forall a :: a in AuditsOf(history) && a.isOverride ==>
              exists w :: w in history && Outside(w) && Attests(a, w)
    ensures forall w :: w in history && Outside(w) ==> exists a :: a in AuditsOf(history) && Attests(a, w)
  {
    if history != [] {
      var init, last := history[..|history| - 1], history[|history| - 1];
      AuditsAttest(init);
      assert history == init + [last] && last in history;
      assert forall a :: a in AuditsOf(history) <==> a in AuditsOf(init) || a in AuditsOfWrite(last);
      forall a | a in AuditsOf(history) && a.isOverride
        ensures exists w :: w in history && Outside(w) && Attests(a, w)
      {
        if a in AuditsOf(init) {
          var w :| w in init && Outside(w) && Attests(a, w);
          assert w in history;
        } else {
          assert Attests(a, last);
        }
      }
      forall w | w in history && Outside(w) ensures exists a :: a in AuditsOf(history) && Attests(a, w) {
        if w in init {
          var a :| a in AuditsOf(init) && Attests(a, w);
          assert a in AuditsOf(history);
        } else {
          var a := Audit(w.kind, w.entity, true, w.performer, w.reason);
          assert AuditsOfWrite(last)[0] == a;
          assert a in AuditsOf(history) && Attests(a, w);
        }
      }
    }
  }

  ghost predicate Accounted(db: Db) {
    && db.audits == AuditsOf(db.history)
    && (forall kind, sel :: Balanced(db, kind, sel))
    && (forall i :: 0 <= i < |db.history| ==> Vouched(db.history[i]))
  }

  lemma AuditAppend(audits: seq<Audit>, a: Audit, kind: Kind, sel: Option<nat>, over: bool)
    ensures AuditCount(audits + [a], kind, sel, over) == AuditCount(audits, kind, sel, over) +
              (if a.kind == kind && Selected(sel, a.entity) && a.isOverride == over then 1 else 0)
  {
    assert (audits + [a])[..|audits|] == audits;
  }

  lemma HistoryAppend(history: seq<Write>, w: Write, kind: Kind, sel: Option<nat>)
    ensures WriteCount(history + [w], kind, sel) == WriteCount(history, kind, sel) +
              (if w.kind == kind && Selected(sel, w.entity) then 1 else 0)
    ensures OutsideCount(history + [w], kind, sel) == OutsideCount(history, kind, sel) +
              (if w.kind == kind && Selected(sel, w.entity) && Outside(w) then 1 else 0)
  {
    assert (history + [w])[..|history|] == history;
  }

  /** The write was made as the decision engine allows it. */
  predicate Decided(db: Db, event: nat, kind: Kind, decision: Decision, performer: Option<string>,
                    reason: Option<string>)
  {
    && event in db.states && decision != Denied
    && decision == CheckAction(db, event, ActionOf(kind), performer, reason)
  }

  /** What Record adds for a kind and an entity: one ordinary audit, and an override audit exactly when
      the write is outside the rules. */
  lemma RecordCounts(db: Db, event: nat, kind: Kind, entity: nat, decision: Decision,
                     performer: Option<string>, reason: Option<string>, k: Kind, sel: Option<nat>)
    requires Decided(db, event, kind, decision, performer, reason)
    ensures var r := Record(db, event, kind, entity, decision, performer, reason);
            var own := if k == kind && Selected(sel, entity) then 1 else 0;
            var outside := if decision == NeedsOverride then own else 0;
            && AuditCount(r.audits, k, sel, false) == AuditCount(db.audits, k, sel, false) + own
            && AuditCount(r.audits, k, sel, true) == AuditCount(db.audits, k, sel, true) + outside
            && WriteCount(r.history, k, sel) == WriteCount(db.history, k, sel) + own
            && OutsideCount(r.history, k, sel) == OutsideCount(db.history, k, sel) + outside
  {
    var ordinary, over := Audit(kind, entity, false, performer, None), Audit(kind, entity, true, performer, reason);
    var r := Record(db, event, kind, entity, decision, performer, reason);
    DecisionIs(db, event, kind, performer, reason);
    HistoryAppend(db.history, r.history[|db.history|], k, sel);
    var audits := if decision == NeedsOverride then db.audits + [over] else db.audits;
    assert r.audits == audits + [ordinary];
    AuditAppend(db.audits, over, k, sel, false);
    AuditAppend(db.audits, over, k, sel, true);
    AuditAppend(audits, ordinary, k, sel, false);
    AuditAppend(audits, ordinary, k, sel, true);
  }

  /** What Record leaves on the log is what the write that it adds to the history calls for. */
  lemma RecordAudits(db: Db, event: nat, kind: Kind, entity: nat, decision: Decision,
                     performer: Option<string>, reason: Option<string>)
    requires Decided(db, event, kind, decision, performer, reason) && db.audits == AuditsOf(db.history)
    ensures var r := Record(db, event, kind, entity, decision, performer, reason);
            r.audits == AuditsOf(r.history)
  {
    var r := Record(db, event, kind, entity, decision, performer, reason);
    var w := r.history[|db.history|];
    DecisionIs(db, event, kind, performer, reason);
    assert r.history[..|db.history|] == db.history;
    assert Outside(w) <==> decision == NeedsOverride;
    assert r.audits == db.audits + AuditsOfWrite(w);
  }

  lemma RecordVouches(db: Db, event: nat, kind: Kind, entity: nat, decision: Decision,
                      performer: Option<string>, reason: Option<string>)
    requires Decided(db, event, kind, decision, performer, reason)
    requires forall i :: 0 <= i < |db.history| ==> Vouched(db.history[i])
    ensures var r := Record(db, event, kind, entity, decision, performer, reason);
            forall i :: 0 <= i < |r.history| ==> Vouched(r.history[i])
  {
    DecisionIs(db, event, kind, performer, reason);
  }

  lemma ExpensesAppend(expenses: seq<Expense>, e: Expense, sel: Option<nat>)
    ensures ExpenseCount(expenses + [e], sel) == ExpenseCount(expenses, sel) + (if Selected(sel, e.event) then 1 else 0)
    ensures OverrideExpenses(expenses + [e], sel) ==
            OverrideExpenses(expenses, sel) + (if Selected(sel, e.event) && e.isOverride then 1 else 0)
  {
    assert (expenses + [e])[..|expenses|] == expenses;
  }

  /** A step that records one row of a kind and adds it to its table keeps the accounts. */
  lemma RecordedRowKeepsAccounts(db: Db, event: nat, kind: Kind, entity: nat, decision: Decision,
                                 performer: Option<string>, reason: Option<string>, r: Db)
    requires Accounted(db) && Decided(db, event, kind, decision, performer, reason)
    requires var rec := Record(db, event, kind, entity, decision, performer, reason);
             r.audits == rec.audits && r.history == rec.history
    requires forall k, sel :: RowCount(r, k, sel) == RowCount(db, k, sel) +
               (if k == kind && Selected(sel, entity) then 1 else 0)
    requires forall sel :: OverrideExpenses(r.expenses, sel) == OverrideExpenses(db.expenses, sel) +
               (if kind == ExpenseRow && Selected(sel, entity) && decision == NeedsOverride then 1 else 0)
    ensures Accounted(r)
  {
    forall k, sel ensures Balanced(r, k, sel) {
      assert Balanced(db, k, sel);
      RecordCounts(db, event, kind, entity, decision, performer, reason, k, sel);
    }
    RecordVouches(db, event, kind, entity, decision, performer, reason);
    RecordAudits(db, event, kind, entity, decision, performer, reason);
  }

  lemma ExpenseKeepsAccounts(db: Db, event: nat, amount: int, performer: Option<string>, reason: Option<string>)
    requires Accounted(db)
    ensures Accounted(AddExpense(db, event, amount, performer, reason).0)
  {
    var (r, outcome) := AddExpense(db, event, amount, performer, reason);
    if outcome == Done {
      var decision := CheckAction(db, event, "ADD_EXPENSE", performer, reason);
      forall sel
        ensures ExpenseCount(r.expenses, sel)
            == ExpenseCount(db.expenses, sel) + (if Selected(sel, event) then 1 else 0)
        ensures OverrideExpenses(r.expenses, sel) == OverrideExpenses(db.expenses, sel) +
                  (if Selected(sel, event) && decision == NeedsOverride then 1 else 0)
      {
        ExpensesAppend(db.expenses, Expense(event, amount, decision == NeedsOverride), sel);
      }
      RecordedRowKeepsAccounts(db, event, ExpenseRow, event, decision, performer, reason, r);
    }
  }

  lemma ContributionKeepsAccounts(db: Db, event: nat, given: Option<int>,
                                  performer: Option<string>, reason: Option<string>)
    requires Accounted(db)
    ensures Accounted(AddContribution(db, event, given, performer, reason).0)
  {
    var (r, outcome) := AddContribution(db, event, given, performer, reason);
    if outcome.Coded? {
      var decision := CheckAction(db, event, "ADD_CONTRIBUTION", performer, reason);
      RecordedRowKeepsAccounts(db, event, ContributionRow, |db.contributions|, decision, performer, reason, r);
    }
  }

  lemma RefundKeepsAccounts(db: Db, event: nat, code: string, amount: int,
                            performer: Option<string>, reason: Option<string>)
    requires Accounted(db)
    ensures Accounted(ProcessRefund(db, event, code, amount, performer, reason).0)
  {
    var (r, outcome) := ProcessRefund(db, event, code, amount, performer, reason);
    if outcome == Done {
      var decision := CheckAction(db, event, "REFUND_CONTRIBUTION", performer, reason);
      RecordedRowKeepsAccounts(db, event, RefundRow, |db.refunds|, decision, performer, reason, r);
    }
  }

  lemma OtherStepKeepsAccounts(db: Db, op: Op)
    requires Accounted(db) && !op.ExpenseOp? && !op.ContributionOp? && !op.RefundOp?
    ensures Accounted(Apply(db, op).0)
  {
    var r := Apply(db, op).0;
    forall k, sel ensures Balanced(r, k, sel) { assert Balanced(db, k, sel); }
  }

  lemma StepKeepsAccounts(db: Db, op: Op)
    requires Accounted(db)
    ensures Accounted(Apply(db, op).0)
  {
    match op
    case ExpenseOp(event, amount, performer, reason) => ExpenseKeepsAccounts(db, event, amount, performer, reason);
    case ContributionOp(event, given, performer, reason) =>
      ContributionKeepsAccounts(db, event, given, performer, reason);
    case RefundOp(event, code, amount, performer, reason) =>
      RefundKeepsAccounts(db, event, code, amount, performer, reason);
    case other => OtherStepKeepsAccounts(db, other);
  }

  // ---------------------------------------------------------------- every run

  /** Override accountability: however event states and the committee change, for each of the three
      actions there are as many OVERRIDE audits as rows written while the action was outside the rules,
      each such row by a then-active officer with a reason; every contribution and every refund has
      exactly one ordinary audit of its own, and every event as many as it has expenses. */
  lemma {:induction false} OverridesAreAccounted(ops: seq<Op>)
    ensures Accounted(Run(ops))
    ensures forall i :: 0 <= i < |Run(ops).history| && Run(ops).history[i].state == "CLOSED" ==>
              Outside(Run(ops).history[i])
  {
    if ops != [] {
      OverridesAreAccounted(ops[..|ops| - 1]);
      StepKeepsAccounts(Run(ops[..|ops| - 1]), ops[|ops| - 1]);
    }
  }

  /** In every run each OVERRIDE row on the log names the performer and the reason, neither blank, of a
      write of its kind and entity outside the rules, made by a then-active officer; and each such write
      has its OVERRIDE row. */
  lemma OverridesNameTheOfficer(ops: seq<Op>)
    ensures var db := Run(ops);
            && (forall a :: a in db.audits && a.isOverride ==>
                  && Given(a.performer) && Given(a.reason)
                  && exists w :: w in db.history && OfficersOverride(w) && Attests(a, w))
            && (forall w :: w in db.history && Outside(w) ==>
                  OfficersOverride(w) && exists a :: a in db.audits && Attests(a, w))
  {
    var db := Run(ops);
    OverridesAreAccounted(ops);
    AuditsAttest(db.history);
    forall a | a in db.audits && a.isOverride
      ensures Given(a.performer) && Given(a.reason)
      ensures exists w :: w in db.history && OfficersOverride(w) && Attests(a, w)
    {
      var w :| w in db.history && Outside(w) && Attests(a, w);
      assert Vouched(w) && OfficersOverride(w);
    }
  }

  predicate LedgerOp(op: Op) {
    op.ExpenseOp? || op.ContributionOp? || op.RefundOp?
  }

  function KindOf(op: Op): Kind {
    if op.ExpenseOp? then ExpenseRow else if op.ContributionOp? then ContributionRow else RefundRow
  }

  predicate WritesRow(db: Db, op: Op) {
    LedgerOp(op) && (Apply(db, op).1 == Done || Apply(db, op).1.Coded?)
  }

  /** The event is in a state in which writing a row takes an override. */
  predicate OutsideRules(db: Db, event: nat) {
    event in db.states && !OpenForMoney(db.states[event])
  }

  /** The audit is about an entity of that kind, and names the performer, at that moment an active officer,
      and the reason. */
  predicate NamesOfficer(db: Db, a: Audit, kind: Kind, entity: nat, performer: Option<string>, reason: Option<string>) {
    a == Audit(kind, entity, true, performer, reason) && Given(reason) && ActiveOfficer(db, performer)
  }

  /** The log grows by the rows of one write: the override row only when the action is outside the rules. */
  predicate LogsWrite(db: Db, r: Db, event: nat, kind: Kind, entity: nat, performer: Option<string>,
                      reason: Option<string>)
  {
    var ordinary := Audit(kind, entity, false, performer, None);
    if OutsideRules(db, event) then
      var a := Audit(kind, entity, true, performer, reason);
      r.audits == db.audits + [a, ordinary] && NamesOfficer(db, a, kind, entity, performer, reason)
    else r.audits == db.audits + [ordinary]
  }

  lemma RecordLogs(db: Db, event: nat, kind: Kind, entity: nat, decision: Decision,
                   performer: Option<string>, reason: Option<string>)
    requires Decided(db, event, kind, decision, performer, reason)
    ensures LogsWrite(db, Record(db, event, kind, entity, decision, performer, reason),
                      event, kind, entity, performer, reason)
  {
    var over, ordinary := Audit(kind, entity, true, performer, reason), Audit(kind, entity, false, performer, None);
    DecisionIs(db, event, kind, performer, reason);
    assert db.audits + [over] + [ordinary] == db.audits + [over, ordinary];
    assert db.audits + [] == db.audits;
  }

  lemma ExpenseLogs(db: Db, event: nat, amount: int, performer: Option<string>, reason: Option<string>)
    ensures var (r, outcome) := AddExpense(db, event, amount, performer, reason);
            if outcome == Done then LogsWrite(db, r, event, ExpenseRow, event, performer, reason)
            else r.audits == db.audits
  {
    var decision := CheckAction(db, event, "ADD_EXPENSE", performer, reason);
    if decision != Denied { RecordLogs(db, event, ExpenseRow, event, decision, performer, reason); }
  }

  lemma ContributionLogs(db: Db, event: nat, given: Option<int>, performer: Option<string>, reason: Option<string>)
    ensures var (r, outcome) := AddContribution(db, event, given, performer, reason);
            if outcome.Coded? then LogsWrite(db, r, event, ContributionRow, |db.contributions|, performer, reason)
            else r.audits == db.audits
  {
    var decision := CheckAction(db, event, "ADD_CONTRIBUTION", performer, reason);
    if decision != Denied { RecordLogs(db, event, ContributionRow, |db.contributions|, decision, performer, reason); }
  }

  lemma RefundLogs(db: Db, event: nat, code: string, amount: int, performer: Option<string>, reason: Option<string>)
    ensures var (r, outcome) := ProcessRefund(db, event, code, amount, performer, reason);
            if outcome == Done then LogsWrite(db, r, event, RefundRow, |db.refunds|, performer, reason)
            else r.audits == db.audits
  {
    var decision := CheckAction(db, event, "REFUND_CONTRIBUTION", performer, reason);
    if decision != Denied { RecordLogs(db, event, RefundRow, |db.refunds|, decision, performer, reason); }
  }

  /** The entity that the audits of the step's row name. */
  function EntityOf(db: Db, op: Op): nat
    requires LedgerOp(op)
  {
    if op.ExpenseOp? then op.event else if op.ContributionOp? then |db.contributions| else |db.refunds|
  }

  /** What a step adds to the log. */
  lemma StepLogs(db: Db, op: Op)
    ensures if WritesRow(db, op)
            then LogsWrite(db, Apply(db, op).0, op.event, KindOf(op), EntityOf(db, op), op.performer, op.reason)
            else Apply(db, op).0.audits == db.audits
  {
    match op
    case ExpenseOp(event, amount, performer, reason) => ExpenseLogs(db, event, amount, performer, reason);
    case ContributionOp(event, given, performer, reason) => ContributionLogs(db, event, given, performer, reason);
    case RefundOp(event, code, amount, performer, reason) => RefundLogs(db, event, code, amount, performer, reason);
    case _ =>
  }

  /** The step writes its row outside the rules, and the audit is about that row and names its performer,
      then an active officer, and its reason. */
  predicate OverriddenBy(db: Db, op: Op, a: Audit) {
    && WritesRow(db, op) && OutsideRules(db, op.event)
    && NamesOfficer(db, a, KindOf(op), EntityOf(db, op), op.performer, op.reason)
  }

  lemma StepOverrides(db: Db, op: Op, i: nat)
    requires |db.audits| <= i < |Apply(db, op).0.audits|
    ensures db.audits <= Apply(db, op).0.audits
    ensures Apply(db, op).0.audits[i].isOverride ==> OverriddenBy(db, op, Apply(db, op).0.audits[i])
  {
    StepLogs(db, op);
  }

  /** The audit is the override row of the k-th step. */
  predicate OverrideOfStep(ops: seq<Op>, k: nat, a: Audit)
    requires k < |ops|
  {
    OverriddenBy(Run(ops[..k]), ops[k], a)
  }

  lemma OverrideOfStepStays(ops: seq<Op>, k: nat, a: Audit)
    requires k < |ops| - 1 && OverrideOfStep(ops[..|ops| - 1], k, a)
    ensures OverrideOfStep(ops, k, a)
  {
    assert ops[..|ops| - 1][..k] == ops[..k];
  }

  /** In every run each OVERRIDE row is that of a step which wrote its row outside the rules, and names that
      step's performer, then an active officer, and its reason, neither of them blank. */
  lemma {:induction false} OverridesNameTheirStep(ops: seq<Op>, i: nat) returns (k: nat)
    requires i < |Run(ops).audits| && Run(ops).audits[i].isOverride
    ensures k < |ops| && OverrideOfStep(ops, k, Run(ops).audits[i])
  {
    var n := |ops| - 1;
    var db := Run(ops[..n]);
    StepLogs(db, ops[n]);
    if i < |db.audits| {
      k := OverridesNameTheirStep(ops[..n], i);
      OverrideOfStepStays(ops, k, db.audits[i]);
    } else {
      k := n;
      StepOverrides(db, ops[n], i);
    }
  }

  lemma {:induction false} AuditsStay(ops: seq<Op>, k: nat)
    requires k <= |ops|
    ensures Run(ops[..k]).audits <= Run(ops).audits
  {
    if k < |ops| {
      AuditsStay(ops[..|ops| - 1], k);
      assert ops[..|ops| - 1][..k] == ops[..k];
      StepLogs(Run(ops[..|ops| - 1]), ops[|ops| - 1]);
    } else {
      assert ops[..k] == ops;
    }
  }

  /** And every step that writes its row outside the rules has its OVERRIDE row on the log ever after. */
  lemma OverridesAreAttested(ops: seq<Op>, k: nat) returns (i: nat)
    requires k < |ops| && WritesRow(Run(ops[..k]), ops[k])
    requires OutsideRules(Run(ops[..k]), ops[k].event)
    ensures i < |Run(ops).audits| && Run(ops).audits[i].isOverride && OverrideOfStep(ops, k, Run(ops).audits[i])
  {
    var db := Run(ops[..k]);
    i := |db.audits|;
    StepLogs(db, ops[k]);
    RunStep(ops[..k], ops[k]);
    assert ops[..k + 1] == ops[..k] + [ops[k]];
    AuditsStay(ops, k + 1);
  }

  lemma CoveredCarriesOver(db: Db, r: Db)
    requires RefundsCovered(db) && db.contributions <= r.contributions && r.refunds == db.refunds
    ensures RefundsCovered(r)
  {
    forall i | 0 <= i < |r.refunds| ensures Covered(r, r.refunds[i].contribution) {
      assert Covered(db, db.refunds[i].contribution);
    }
  }

  lemma OtherOpsKeepSponsors(db: Db, op: Op)
    requires !op.ContributionOp? && !op.RefundOp?
    ensures Apply(db, op).0.contributions == db.contributions && Apply(db, op).0.refunds == db.refunds
  {
  }

  lemma StepKeepsCodes(db: Db, op: Op)
    requires Numbered(db.contributions) && RefundsCovered(db)
    ensures Numbered(Apply(db, op).0.contributions) && RefundsCovered(Apply(db, op).0)
  {
    match op
    case ContributionOp(event, given, performer, reason) =>
      ContributionKeepsNumbered(db, event, given, performer, reason);
      CoveredCarriesOver(db, AddContribution(db, event, given, performer, reason).0);
    case RefundOp(event, code, amount, performer, reason) =>
      RefundKeepsCovered(db, event, code, amount, performer, reason);
    case other =>
      OtherOpsKeepSponsors(db, other);
      CoveredCarriesOver(db, Apply(db, other).0);
  }

  lemma {:induction false} CodesAndRefunds(ops: seq<Op>)
    ensures Numbered(Run(ops).contributions) && RefundsCovered(Run(ops))
  {
    if ops != [] {
      CodesAndRefunds(ops[..|ops| - 1]);
      StepKeepsCodes(Run(ops[..|ops| - 1]), ops[|ops| - 1]);
    }
  }

  /** Sponsor ledger: in every run the codes of an event are pairwise distinct, and what was refunded
      against a contribution that has any refund never exceeds its amount, overrides included. */
  lemma {:induction false} SponsorLedger(ops: seq<Op>)
    ensures var db := Run(ops);
            && (forall i, j :: 0 <= i < j < |db.contributions|
                               && db.contributions[i].event == db.contributions[j].event ==>
                  db.contributions[i].code != db.contributions[j].code)
            && (forall i :: 0 <= i < |db.refunds| ==> Covered(db, db.refunds[i].contribution))
  {
    CodesAndRefunds(ops);
    var db := Run(ops);
    forall i, j | 0 <= i < j < |db.contributions| && db.contributions[i].event == db.contributions[j].event
      ensures db.contributions[i].code != db.contributions[j].code
    {
      NumberedIsDistinct(db.contributions, i, j);
    }
  }

  lemma {:induction false} ContributionsOnlyGrow(ops: seq<Op>, more: seq<Op>)
    ensures Run(ops).contributions <= Run(ops + more).contributions
  {
    if more == [] {
      assert ops + more == ops;
    } else {
      assert (ops + more)[..|ops + more| - 1] == ops + more[..|more| - 1];
      ContributionsOnlyGrow(ops, more[..|more| - 1]);
    }
  }

  /** The code handed back by add_contribution resolves to that very contribution, then and for the
      rest of any run. */
  lemma CodeResolvesBack(ops: seq<Op>, event: nat, given: Option<int>, performer: Option<string>,
                         reason: Option<string>, more: seq<Op>)
    requires AddContribution(Run(ops), event, given, performer, reason).1.Coded?
    ensures var code := AddContribution(Run(ops), event, given, performer, reason).1.code;
            var r := Run(ops + [ContributionOp(event, given, performer, reason)] + more);
            var i := |Run(ops).contributions|;
            && FindContribution(r.contributions, event, code) == Some(i)
            && r.contributions[i].amount == given
  {
    var op := ContributionOp(event, given, performer, reason);
    var code := AddContribution(Run(ops), event, given, performer, reason).1.code;
    var i := |Run(ops).contributions|;
    assert (ops + [op])[..|ops|] == ops;
    ContributionsOnlyGrow(ops + [op], more);
    CodesAndRefunds(ops + [op] + more);
    var all := Run(ops + [op] + more).contributions;
    assert all[i] == Contribution(event, code, given);
    var found := FindContribution(all, event, code).value;
    if found != i { NumberedIsDistinct(all, if found < i then found else i, if found < i then i else found); }
  }

  // ---------------------------------------------------------------- who may write a row

  /** The event's state is open for money, or an active officer overrides it with a reason. */
  predicate MayWrite(db: Db, event: nat, performer: Option<string>, reason: Option<string>) {
    event in db.states && (OpenForMoney(db.states[event]) || (ActiveOfficer(db, performer) && Given(reason)))
  }

  /** The contribution is not in money. */
  predicate InKindAt(db: Db, k: nat)
    requires k < |db.contributions|
  {
    db.contributions[k].amount.None? || db.contributions[k].amount.value == 0
  }

  predicate Refundable(db: Db, k: nat, amount: int)
    requires k < |db.contributions|
  {
    !InKindAt(db, k) && Refunded(db.refunds, k) + amount <= db.contributions[k].amount.value
  }

  /** What the event has spent. */
  function Spent(expenses: seq<Expense>, event: nat): int {
    if expenses == [] then 0
    else
      var e := expenses[|expenses| - 1];
      Spent(expenses[..|expenses| - 1], event) + (if e.event == event then e.amount else 0)
  }

  /** The audit rows of a row that was just written: a second, OVERRIDE one exactly in a state that is not
      open for money. */
  function NewAudits(db: Db, event: nat, kind: Kind, entity: nat, performer: Option<string>,
                     reason: Option<string>): seq<Audit>
    requires event in db.states
  {
    (if OpenForMoney(db.states[event]) then [] else [Audit(kind, entity, true, performer, reason)]) +
    [Audit(kind, entity, false, performer, None)]
  }

  /** Nothing but the three tables named, and the log, differs. */
  predicate SameSetting(db: Db, r: Db) {
    r.events == db.events && r.states == db.states && r.members == db.members
  }

  /** An expense is written exactly when its amount is positive, the event exists, and its state is open for
      money or an officer overrides it: one row, the event's total grown by the amount, and the audits. In all
      other cases nothing changes, and the answer is the first reason that applies. */
  lemma ExpenseWrittenIff(db: Db, event: nat, amount: int, performer: Option<string>, reason: Option<string>)
    ensures var (r, answer) := AddExpense(db, event, amount, performer, reason);
            if amount > 0 && event in db.events && MayWrite(db, event, performer, reason)
            then
              && answer == Done && SameSetting(db, r)
              && r.expenses == db.expenses + [Expense(event, amount, !OpenForMoney(db.states[event]))]
              && (forall e :: Spent(r.expenses, e) == Spent(db.expenses, e) + (if e == event then amount else 0))
              && r.contributions == db.contributions && r.refunds == db.refunds
              && r.audits == db.audits + NewAudits(db, event, ExpenseRow, event, performer, reason)
            else
              r == db && answer == if amount <= 0 then BadAmount else if event !in db.events then InvalidEvent
                                   else NotAllowed
  {
    DecisionIs(db, event, ExpenseRow, performer, reason);
    var (r, answer) := AddExpense(db, event, amount, performer, reason);
    if answer == Done {
      ExpenseLogs(db, event, amount, performer, reason);
      assert r.expenses[..|db.expenses|] == db.expenses;
    }
  }

  /** A contribution is written exactly when the event exists and its state is open for money or an officer
      overrides it: one row with the amount and the next free code, and its audits. */
  lemma ContributionWrittenIff(db: Db, event: nat, given: Option<int>, performer: Option<string>,
                               reason: Option<string>)
    ensures var (r, answer) := AddContribution(db, event, given, performer, reason);
            if event in db.events && MayWrite(db, event, performer, reason)
            then
              && answer.Coded? && SameSetting(db, r)
              && r.contributions == db.contributions + [Contribution(event, answer.code, given)]
              && r.expenses == db.expenses && r.refunds == db.refunds
              && r.audits == db.audits +
                   NewAudits(db, event, ContributionRow, |db.contributions|, performer, reason)
            else r == db && answer == if event !in db.events then InvalidEvent else NotAllowed
  {
    DecisionIs(db, event, ContributionRow, performer, reason);
    ContributionLogs(db, event, given, performer, reason);
  }

  predicate SomeRefundable(db: Db, event: nat, code: string, amount: int) {
    exists k :: 0 <= k < |db.contributions| && Carries(db.contributions[k], event, code) && Refundable(db, k, amount)
  }

  lemma FoundRefundWrittenIff(db: Db, event: nat, code: string, amount: int,
                              performer: Option<string>, reason: Option<string>)
    ensures var (r, answer) := ProcessRefund(db, event, code, amount, performer, reason);
            var found := FindContribution(db.contributions, event, code);
            if event in db.events && found.Some? && Refundable(db, found.value, amount)
               && MayWrite(db, event, performer, reason)
            then
              && answer == Done && SameSetting(db, r) && r.refunds == db.refunds + [Refund(found.value, amount)]
              && r.expenses == db.expenses && r.contributions == db.contributions
              && r.audits == db.audits + NewAudits(db, event, RefundRow, |db.refunds|, performer, reason)
            else
              r == db && answer ==
                if event !in db.events then InvalidEvent
                else if found.None? then InvalidSponsor
                else if InKindAt(db, found.value) then InKind
                else if !Refundable(db, found.value, amount) then Exceeds
                else NotAllowed
  {
    DecisionIs(db, event, RefundRow, performer, reason);
    RefundLogs(db, event, code, amount, performer, reason);
  }

  lemma SomeRefundableIsFound(db: Db, event: nat, code: string, amount: int)
    requires Numbered(db.contributions)
    ensures var found := FindContribution(db.contributions, event, code);
            SomeRefundable(db, event, code, amount) <==> found.Some? && Refundable(db, found.value, amount)
  {
    if k :| 0 <= k < |db.contributions| && Carries(db.contributions[k], event, code) && Refundable(db, k, amount) {
      CodeFindsOnly(db.contributions, event, code, k);
    }
  }

  /** A refund is written exactly when some contribution of the event carries the code and can still bear
      it, and the state is open for money or an officer overrides it. */
  lemma {:induction false} RefundWrittenIff(db: Db, event: nat, code: string, amount: int,
                                            performer: Option<string>, reason: Option<string>)
    requires Numbered(db.contributions)
    ensures var (r, answer) := ProcessRefund(db, event, code, amount, performer, reason);
            if event in db.events && MayWrite(db, event, performer, reason)
               && SomeRefundable(db, event, code, amount)
            then
              && answer == Done && |r.refunds| == |db.refunds| + 1 && r.refunds[..|db.refunds|] == db.refunds
              && r.refunds[|db.refunds|].amount == amount
              && r.refunds[|db.refunds|].contribution < |db.contributions|
              && Carries(db.contributions[r.refunds[|db.refunds|].contribution], event, code)
              && r.audits == db.audits + NewAudits(db, event, RefundRow, |db.refunds|, performer, reason)
            else r == db && answer != Done
  {
    SomeRefundableIsFound(db, event, code, amount);
    FoundRefundWrittenIff(db, event, code, amount, performer, reason);
  }

  lemma CodeFindsOnly(contributions: seq<Contribution>, event: nat, code: string, k: nat)
    requires Numbered(contributions) && k < |contributions| && Carries(contributions[k], event, code)
    ensures FindContribution(contributions, event, code) == Some(k)
  {
    var found := FindContribution(contributions, event, code).value;
    if found != k { NumberedIsDistinct(contributions, if found < k then found else k, if found < k then k else found); }
  }

  // ---------------------------------------------------------------- money paid out

  /** The positive refunds against contribution k, and the negative ones, which count as money back. */
  function Paid(refunds: seq<Refund>, k: nat): nat {
    if refunds == [] then 0
    else
      var r := refunds[|refunds| - 1];
      Paid(refunds[..|refunds| - 1], k) + (if r.contribution == k && r.amount > 0 then r.amount else 0)
  }

  function TakenBack(refunds: seq<Refund>, k: nat): nat {
    if refunds == [] then 0
    else
      var r := refunds[|refunds| - 1];
      TakenBack(refunds[..|refunds| - 1], k) + (if r.contribution == k && r.amount < 0 then -r.amount else 0)
  }

  lemma {:induction false} RefundedIsNet(refunds: seq<Refund>, k: nat)
    ensures Refunded(refunds, k) == Paid(refunds, k) - TakenBack(refunds, k)
  {
    if refunds != [] { RefundedIsNet(refunds[..|refunds| - 1], k); }
  }

  /** The service checks the net total only. A positive refund that it grants takes the money paid out
      above the contribution exactly when the refund is more than what is left of the contribution and of
      the money taken back by negative refunds. */
  lemma RefundOverpaysIff(db: Db, event: nat, code: string, amount: int,
                          performer: Option<string>, reason: Option<string>)
    requires amount > 0 && ProcessRefund(db, event, code, amount, performer, reason).1 == Done
    ensures var k := FindContribution(db.contributions, event, code).value;
            var given := db.contributions[k].amount.value;
            Paid(ProcessRefund(db, event, code, amount, performer, reason).0.refunds, k) > given <==>
            amount > given - Refunded(db.refunds, k) - TakenBack(db.refunds, k)
  {
    var k := FindContribution(db.contributions, event, code).value;
    RefundAppends(db, event, code, amount, performer, reason);
    RefundedIsNet(db.refunds, k);
    var r := db.refunds + [Refund(k, amount)];
    assert r[..|db.refunds|] == db.refunds;
  }

  lemma {:induction false} NothingTakenBack(refunds: seq<Refund>, k: nat)
    ensures TakenBack(refunds, k) == 0 <==>
            forall i :: 0 <= i < |refunds| && refunds[i].contribution == k ==> refunds[i].amount >= 0
  {
    if refunds != [] { NothingTakenBack(refunds[..|refunds| - 1], k); }
  }

  /** In every run the money paid out against a contribution exceeds its amount by no more than what
      negative refunds took back; without a negative refund on file it stays within the amount. */
  lemma {:induction false} PaidWithinAmount(ops: seq<Op>, i: nat)
    requires i < |Run(ops).refunds|
    ensures var db := Run(ops);
            var k := db.refunds[i].contribution;
            && Covered(db, k)
            && Paid(db.refunds, k) <= db.contributions[k].amount.value + TakenBack(db.refunds, k)
            && ((forall j :: 0 <= j < |db.refunds| && db.refunds[j].contribution == k ==> db.refunds[j].amount >= 0) ==>
                  Paid(db.refunds, k) <= db.contributions[k].amount.value)
  {
    var db := Run(ops);
    CodesAndRefunds(ops);
    var k := db.refunds[i].contribution;
    assert Covered(db, k);
    RefundedIsNet(db.refunds, k);
    NothingTakenBack(db.refunds, k);
  }

  /** A run that pays out 150 against a contribution of 100: a refund of -50, then one of 150. */
  lemma OverpaidRun() returns (ops: seq<Op>)
    ensures var db := Run(ops);
            |db.contributions| == 1 && db.contributions[0].amount == Some(100) && Paid(db.refunds, 0) == 150
  {
    var setup := [NewEvent(0), SetState(0, "ACTIVE")];
    var db := ActiveEvent(setup);
    RunStep(setup, ContributionOp(0, Some(100), None, None));
    ops := setup + [ContributionOp(0, Some(100), None, None)];
    var code := FirstContribution(db, Run(ops));
    GrantedRefund(Run(ops), code, -50);
    RunStep(ops, RefundOp(0, code, -50, None, None));
    ops := ops + [RefundOp(0, code, -50, None, None)];
    GrantedRefund(Run(ops), code, 150);
    RunStep(ops, RefundOp(0, code, 150, None, None));
    ops := ops + [RefundOp(0, code, 150, None, None)];
  }

  lemma FirstContribution(db: Db, r: Db) returns (code: string)
    requires db == EmptyDb.(events := {0}, states := map[0 := "ACTIVE"])
    requires r == AddContribution(db, 0, Some(100), None, None).0
    ensures r.events == {0} && r.states == map[0 := "ACTIVE"] && r.refunds == []
    ensures r.contributions == [Contribution(0, code, Some(100))] && Paid(r.refunds, 0) == Refunded(r.refunds, 0) == 0
  {
    code := AddContribution(db, 0, Some(100), None, None).1.code;
  }

  lemma GrantedRefund(db: Db, code: string, amount: int)
    requires db.events == {0} && db.states == map[0 := "ACTIVE"]
    requires db.contributions == [Contribution(0, code, Some(100))] && Refunded(db.refunds, 0) + amount <= 100
    ensures var r := ProcessRefund(db, 0, code, amount, None, None).0;
            && r.events == db.events && r.states == db.states && r.contributions == db.contributions
            && Refunded(r.refunds, 0) == Refunded(db.refunds, 0) + amount
            && Paid(r.refunds, 0) == Paid(db.refunds, 0) + (if amount > 0 then amount else 0)
  {
    CodeFindsFirst(db.contributions[0]);
    RefundedAppend(db.refunds, Refund(0, amount), 0);
    assert (db.refunds + [Refund(0, amount)])[..|db.refunds|] == db.refunds;
  }

  lemma ActiveEvent(setup: seq<Op>) returns (db: Db)
    requires setup == [NewEvent(0), SetState(0, "ACTIVE")]
    ensures db == Run(setup) == EmptyDb.(events := {0}, states := map[0 := "ACTIVE"])
  {
    db := Run(setup);
    assert setup[..1] == [NewEvent(0)] && setup[..1][..0] == [];
    assert Run(setup[..1]) == EmptyDb.(events := {0});
  }

  lemma CodeFindsFirst(c: Contribution)
    ensures FindContribution([c], c.event, c.code) == Some(0)
  {
    assert [c][..0] == [];
  }

  lemma RunStep(ops: seq<Op>, op: Op)
    ensures Run(ops + [op]) == Apply(Run(ops), op).0
  {
    assert (ops + [op])[..|ops|] == ops;
  }
}
