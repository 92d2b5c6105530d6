/** The three ledger services as the source has them, over mutable tables; each call commits all its
    rows or none. Proved against LedgerModel. */
module Ledger {
  import opened LedgerModel
  import opened Options
  import opened Text

  class Book {
    var events: set<nat>
    var states: map<nat, string>
    var members: map<string, Member>
    var expenses: seq<Expense>
    var contributions: seq<Contribution>
    var refunds: seq<Refund>
    var audits: seq<Audit>
    ghost var history: seq<Write>

    ghost function Abs(): Db
      reads this
    {
      Db(events, states, members, expenses, contributions, refunds, audits, history)
    }

    constructor ()
      ensures Abs() == EmptyDb
    {
      events, states, members := {}, map[], map[];
      expenses, contributions, refunds, audits, history := [], [], [], [], [];
    }

    /** A read-only decision, check by check. */
    method CheckAction(event: nat, action: string, performer: Option<string>, reason: Option<string>)
      returns (decision: Decision)
      ensures decision == LedgerModel.CheckAction(Abs(), event, action, performer, reason)
    {
      if event !in states {
        return Denied;
      }
      if action in StateRules(states[event]) {
        return Allowed;
      }
      if performer.None? || Blank(performer.value) {
        return Denied;
      }
      if performer.value !in members {
        return Denied;
      }
      var member := members[performer.value];
      if !member.active || member.role !in OVERRIDE_ROLES {
        return Denied;
      }
      if reason.None? || Blank(reason.value) {
        return Denied;
      }
      decision := NeedsOverride;
    }

    /** The audit rows of a row about to be written; the override row, when there is one, comes first. */
    method WriteAudits(event: nat, kind: Kind, entity: nat, isOverride: bool,
                       performer: Option<string>, reason: Option<string>)
      requires event in states
      modifies this`audits, this`history
      ensures Abs() == Record(old(Abs()), event, kind, entity, if isOverride then NeedsOverride else Allowed,
                              performer, reason)
    {
      if isOverride {
        audits := audits + [Audit(kind, entity, true, performer, reason)];
      } else {
        assert audits + [] == audits;
      }
      audits := audits + [Audit(kind, entity, false, performer, None)];
      ghost var member :=
        if performer.Some? && performer.value in members then Some(members[performer.value]) else None;
      history := history + [Write(kind, entity, states[event], performer, member, reason)];
    }

    method AddExpense(event: nat, amount: int, performer: Option<string>, reason: Option<string>)
      returns (outcome: Outcome)
      modifies this
      ensures (Abs(), outcome) == LedgerModel.AddExpense(old(Abs()), event, amount, performer, reason)
    {
      if amount <= 0 {
        return BadAmount;
      }
      if event !in events {
        return InvalidEvent;
      }
      var decision := CheckAction(event, "ADD_EXPENSE", performer, reason);
      if decision == Denied {
        return NotAllowed;
      }
      var isOverride := decision != Allowed;
      WriteAudits(event, ExpenseRow, event, isOverride, performer, reason);
      expenses := expenses + [Expense(event, amount, isOverride)];
      outcome := Done;
    }

    method CountContributions(event: nat) returns (count: nat)
      ensures count == CountFor(contributions, event)
    {
      count := 0;
      var i := 0;
      while i < |contributions|
        invariant i <= |contributions| && count == CountFor(contributions[..i], event)
      {
        if contributions[i].event == event {
          count := count + 1;
        }
        assert contributions[..i + 1][..i] == contributions[..i];
        i := i + 1;
      }
      assert contributions[..i] == contributions;
    }

    method AddContribution(event: nat, amount: Option<int>, performer: Option<string>, reason: Option<string>)
      returns (outcome: Outcome)
      modifies this
      ensures (Abs(), outcome) == LedgerModel.AddContribution(old(Abs()), event, amount, performer, reason)
    {
      if event !in events {
        return InvalidEvent;
      }
      var decision := CheckAction(event, "ADD_CONTRIBUTION", performer, reason);
      if decision == Denied {
        return NotAllowed;
      }
      var count := CountContributions(event);
      var code := SponsorCode(count + 1);
      WriteAudits(event, ContributionRow, |contributions|, decision != Allowed, performer, reason);
      contributions := contributions + [Contribution(event, code, amount)];
      outcome := Coded(code);
    }

    method ProcessRefund(event: nat, code: string, amount: int, performer: Option<string>, reason: Option<string>)
      returns (outcome: Outcome)
      modifies this
      ensures (Abs(), outcome) == LedgerModel.ProcessRefund(old(Abs()), event, code, amount, performer, reason)
    {
      if event !in events {
        return InvalidEvent;
      }
      var found := FindContribution(contributions, event, code);
      if found.None? {
        return InvalidSponsor;
      }
      var given := contributions[found.value].amount;
      if given.None? || given.value == 0 {
        return InKind;
      }
      var totalRefunded := Refunded(refunds, found.value);
      if totalRefunded + amount > given.value {
        return Exceeds;
      }
      var decision := CheckAction(event, "REFUND_CONTRIBUTION", performer, reason);
      if decision == Denied {
        return NotAllowed;
      }
      WriteAudits(event, RefundRow, |refunds|, decision != Allowed, performer, reason);
      refunds := refunds + [Refund(found.value, amount)];
      outcome := Done;
    }
  }
}
