/** The event ledger behind the workflow engine: expenses, sponsor contributions and their refunds. */
module LedgerModel {
  import opened Numerals
  import opened Options
  import opened Text

  // ---------------------------------------------------------------- the rules

  const OVERRIDE_ROLES := {"chairman", "secretary", "treasurer"}

  const LOCKED_ACTIONS := {
    "MARK_PAID", "ADD_EXPENSE", "ADD_CONTRIBUTION", "REQUEST_PAYMENT", "REQUEST_REFUND", "REFUND_CONTRIBUTION",
    "START_EVENT", "GENERATE_FOOD_TOKENS"
  }

  /** The actions a state allows; a state the table does not know allows none. */
  function StateRules(state: string): set<string> {
    if state == "DRAFT" then {"CREATE_EVENT", "ACTIVATE_EVENT"}
    else if state == "ACTIVE" then {
      "ADD_PASS", "MARK_PAID", "ADD_EXPENSE", "ADD_CONTRIBUTION", "REQUEST_PAYMENT", "REQUEST_REFUND",
      "REFUND_CONTRIBUTION", "LOCK_PASSES"
    }
    else if state == "LOCKED" then LOCKED_ACTIONS
    else if state == "EVENT_DAY" then {
      "GENERATE_FOOD_TOKENS", "OPEN_FOOD_COUNTER", "SERVE_FOOD_TOKEN", "ADD_EXPENSE", "ADD_CONTRIBUTION",
      "REQUEST_PAYMENT", "REQUEST_REFUND", "REFUND_CONTRIBUTION", "CLOSE_EVENT"
    }
    else {}
  }

  // ---------------------------------------------------------------- the tables

  datatype Kind = ExpenseRow | ContributionRow | RefundRow

  function ActionOf(kind: Kind): string {
    match kind
    case ExpenseRow => "ADD_EXPENSE"
    case ContributionRow => "ADD_CONTRIBUTION"
    case RefundRow => "REFUND_CONTRIBUTION"
  }

  datatype Member = Member(role: string, active: bool)

  datatype Expense = Expense(event: nat, amount: int, isOverride: bool)

  datatype Contribution = Contribution(event: nat, code: string, amount: Option<int>)

  datatype Refund = Refund(contribution: nat, amount: int)

  /** An audit row of one of the three actions: the ordinary one, or its OVERRIDE_ companion. It names
      the contribution or the refund that it is about; an expense only by its event. The free text of an
      ordinary row is not modelled. */
  datatype Audit = Audit(kind: Kind, entity: nat, isOverride: bool, performer: Option<string>, reason: Option<string>)

  /** Not a table: the circumstances in which each row was written. */
  datatype Write = Write(kind: Kind, entity: nat, state: string, performer: Option<string>,
                         member: Option<Member>, reason: Option<string>)

  /** Rows are named by their position in their table. */
  datatype Db = Db(
    events: set<nat>,
    states: map<nat, string>,
    members: map<string, Member>,
    expenses: seq<Expense>,
    contributions: seq<Contribution>,
    refunds: seq<Refund>,
    audits: seq<Audit>,
    history: seq<Write>)

  const EmptyDb := Db({}, map[], map[], [], [], [], [], [])

  datatype Decision = Allowed | NeedsOverride | Denied

  datatype Outcome =
    | Done | Coded(code: string) | BadAmount | InvalidEvent | NotAllowed | InvalidSponsor | InKind | Exceeds

  predicate BlankOption(s: Option<string>) {
    s.None? || Blank(s.value)
  }

  predicate IsOfficer(m: Member) {
    m.active && m.role in OVERRIDE_ROLES
  }

  function CheckAction(db: Db, event: nat, action: string,
                       performer: Option<string>, reason: Option<string>): Decision
  {
    if event !in db.states then Denied
    else if action in StateRules(db.states[event]) then Allowed
    else if BlankOption(performer) then Denied
    else if performer.value !in db.members || !IsOfficer(db.members[performer.value]) then Denied
    else if BlankOption(reason) then Denied
    else NeedsOverride
  }

  // ---------------------------------------------------------------- writing a row

  /** The audit rows and the history entry of a row written under the decision. */
  function Record(db: Db, event: nat, kind: Kind, entity: nat, decision: Decision,
                  performer: Option<string>, reason: Option<string>): Db
    requires event in db.states
  {
    var over := if decision == NeedsOverride then [Audit(kind, entity, true, performer, reason)] else [];
    var member := if performer.Some? && performer.value in db.members then Some(db.members[performer.value]) else None;
    db.(audits := db.audits + over + [Audit(kind, entity, false, performer, None)],
        history := db.history + [Write(kind, entity, db.states[event], performer, member, reason)])
  }

  function AddExpense(db: Db, event: nat, amount: int,
                      performer: Option<string>, reason: Option<string>): (Db, Outcome)
  {
    if amount <= 0 then (db, BadAmount)
    else if event !in db.events then (db, InvalidEvent)
    else
      var decision := CheckAction(db, event, "ADD_EXPENSE", performer, reason);
      if decision == Denied then (db, NotAllowed)
      else
        (Record(db, event, ExpenseRow, event, decision, performer, reason)
           .(expenses := db.expenses + [Expense(event, amount, decision == NeedsOverride)]), Done)
  }

  function CountFor(contributions: seq<Contribution>, event: nat): nat {
    if contributions == [] then 0
    else CountFor(contributions[..|contributions| - 1], event) +
         (if contributions[|contributions| - 1].event == event then 1 else 0)
  }

  /** SP- and the number, padded with zeros to three digits. */
  function SponsorCode(n: nat): string {
    "SP-" + RightJustify(Numeral(n, 10), 3)
  }

  function AddContribution(db: Db, event: nat, amount: Option<int>,
                           performer: Option<string>, reason: Option<string>): (Db, Outcome)
  {
    if event !in db.events then (db, InvalidEvent)
    else
      var decision := CheckAction(db, event, "ADD_CONTRIBUTION", performer, reason);
      if decision == Denied then (db, NotAllowed)
      else
        var code := SponsorCode(CountFor(db.contributions, event) + 1);
        (Record(db, event, ContributionRow, |db.contributions|, decision, performer, reason)
           .(contributions := db.contributions + [Contribution(event, code, amount)]), Coded(code))
  }

  predicate Carries(c: Contribution, event: nat, code: string) {
    c.event == event && c.code == code
  }

  /** The first contribution of the event with the code. */
  function FindContribution(contributions: seq<Contribution>, event: nat, code: string): (r: Option<nat>)
    ensures r.Some? ==> r.value < |contributions| && Carries(contributions[r.value], event, code)
    ensures r.None? ==> forall i :: 0 <= i < |contributions| ==> !Carries(contributions[i], event, code)
  {
    if contributions == [] then None
    else
      var n := |contributions| - 1;
      match FindContribution(contributions[..n], event, code)
      case Some(i) => Some(i)
      case None => if Carries(contributions[n], event, code) then Some(n) else None
  }

  function Refunded(refunds: seq<Refund>, contribution: nat): int {
    if refunds == [] then 0
    else Refunded(refunds[..|refunds| - 1], contribution) +
         (if refunds[|refunds| - 1].contribution == contribution then refunds[|refunds| - 1].amount else 0)
  }

  function ProcessRefund(db: Db, event: nat, code: string, amount: int,
                         performer: Option<string>, reason: Option<string>): (Db, Outcome)
  {
    if event !in db.events then (db, InvalidEvent)
    else
      match FindContribution(db.contributions, event, code)
      case None => (db, InvalidSponsor)
      case Some(i) =>
        var given := db.contributions[i].amount;
        if given.None? || given.value == 0 then (db, InKind)
        else if Refunded(db.refunds, i) + amount > given.value then (db, Exceeds)
        else
          var decision := CheckAction(db, event, "REFUND_CONTRIBUTION", performer, reason);
          if decision == Denied then (db, NotAllowed)
          else
            (Record(db, event, RefundRow, |db.refunds|, decision, performer, reason)
               .(refunds := db.refunds + [Refund(i, amount)]), Done)
  }

  // ---------------------------------------------------------------- runs

  /** Events, their states and the committee change as they please between ledger operations. */
  datatype Op =
    | NewEvent(event: nat)
    | SetState(event: nat, state: string)
    | SetMember(id: string, member: Member)
    | ExpenseOp(event: nat, amount: int, performer: Option<string>, reason: Option<string>)
    | ContributionOp(event: nat, given: Option<int>, performer: Option<string>, reason: Option<string>)
    | RefundOp(event: nat, code: string, amount: int, performer: Option<string>, reason: Option<string>)

  function Apply(db: Db, op: Op): (Db, Outcome) {
    match op
    case NewEvent(event) => (db.(events := db.events + {event}), Done)
    case SetState(event, state) => (db.(states := db.states[event := state]), Done)
    case SetMember(id, member) => (db.(members := db.members[id := member]), Done)
    case ExpenseOp(event, amount, performer, reason) => AddExpense(db, event, amount, performer, reason)
    case ContributionOp(event, given, performer, reason) => AddContribution(db, event, given, performer, reason)
    case RefundOp(event, code, amount, performer, reason) => ProcessRefund(db, event, code, amount, performer, reason)
  }

  function Run(ops: seq<Op>): Db {
    if ops == [] then EmptyDb else Apply(Run(ops[..|ops| - 1]), ops[|ops| - 1]).0
  }
}
