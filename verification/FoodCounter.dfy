/** When the food counter of an event is open, over every run. */
module FoodCounter {
  import opened Options
  import opened FoodModel
  import opened FoodLockout

  /** When the counter opened last for the event is due to close. */
  function LastClosing(ops: seq<Op>, event: nat): Option<int> {
    if ops == [] then None
    else
      match ops[|ops| - 1]
      case OpenOp(e, now, minutes, gate) =>
        if e == event && gate != Denied then Some(now + minutes * 60_000_000) else LastClosing(ops[..|ops| - 1], event)
      case _ => LastClosing(ops[..|ops| - 1], event)
  }

  function EventOf(op: Op): nat {
    op.event
  }

  /** Some step's clock read more than the given time. */
  predicate WentPast(ops: seq<Op>, time: int) {
    exists k :: 0 <= k < |ops| && TimeOf(ops[k]).Some? && TimeOf(ops[k]).value > time
  }

  /** The row is there exactly when the event's counter was ever opened; it holds the last closing time,
      and it is closed only if some step found that time over. */
  predicate CounterKept(db: Db, ops: seq<Op>, event: nat) {
    var closing := LastClosing(ops, event);
    && (event in db.counters <==> closing.Some?)
    && (event in db.counters ==>
          && db.counters[event].closesAt == closing.value
          && (!db.counters[event].isOpen ==> WentPast(ops, closing.value)))
  }

  /** What a step can do to an event's counter: nothing, open it, or close it when its time is over. */
  lemma StepOnCounter(db: Db, op: Op, event: nat)
    ensures var r := Apply(db, op).0;
            if op.OpenOp? && op.gate != Denied && op.event == event
            then event in r.counters && r.counters[event] == Counter(true, op.now + op.minutes * 60_000_000)
            else
              && (event in r.counters <==> event in db.counters)
              && (event in db.counters ==>
                    || r.counters[event] == db.counters[event]
                    || (&& r.counters[event] == db.counters[event].(isOpen := false)
                        && TimeOf(op).Some? && TimeOf(op).value > db.counters[event].closesAt))
  {
  }

  lemma WentPastGrows(ops: seq<Op>, op: Op, time: int)
    ensures WentPast(ops, time) ==> WentPast(ops + [op], time)
    ensures TimeOf(op).Some? && TimeOf(op).value > time ==> WentPast(ops + [op], time)
  {
    var r := ops + [op];
    if k :| 0 <= k < |ops| && TimeOf(ops[k]).Some? && TimeOf(ops[k]).value > time {
      assert r[k] == ops[k];
    }
    assert r[|ops|] == op;
  }

  lemma {:induction false} CountersAreKept(ops: seq<Op>, event: nat)
    ensures CounterKept(Run(ops), ops, event)
  {
    if ops != [] {
      var init, op := ops[..|ops| - 1], ops[|ops| - 1];
      CountersAreKept(init, event);
      StepOnCounter(Run(init), op, event);
      assert ops == init + [op];
      var closing := LastClosing(init, event);
      if closing.Some? { WentPastGrows(init, op, closing.value); }
    }
  }

  /** With a clock that never goes back, the check finds the counter open exactly when it was opened and
      the time for which it was opened last is not over. */
  lemma CounterOpenIff(ops: seq<Op>, event: nat, now: int)
    requires forall k :: 0 <= k < |ops| && TimeOf(ops[k]).Some? ==> TimeOf(ops[k]).value <= now
    ensures CheckCounter(Run(ops), event, now).1.None? <==>
            LastClosing(ops, event).Some? && now <= LastClosing(ops, event).value
  {
    CountersAreKept(ops, event);
  }

  /** A call that finds the counter open needs it to be there, open and in time. */
  lemma HandsOutOnlyWhileOpen(db: Db, op: Op)
    requires Apply(db, op).1.Served? || Apply(db, op).1.FellBack?
    ensures TimeOf(op).Some? && EventOf(op) in db.counters && TimeOf(op).value <= db.counters[EventOf(op)].closesAt
  {
  }

  /** In every run a plate, with a token or without, is handed out only after the event's counter was
      opened and not after the time for which it was opened last. */
  lemma PlatesOnlyWhileOpen(ops: seq<Op>, k: nat)
    requires k < |ops|
    requires Apply(Run(ops[..k]), ops[k]).1.Served? || Apply(Run(ops[..k]), ops[k]).1.FellBack?
    ensures TimeOf(ops[k]).Some? && LastClosing(ops[..k], EventOf(ops[k])).Some?
    ensures TimeOf(ops[k]).value <= LastClosing(ops[..k], EventOf(ops[k])).value
  {
    CountersAreKept(ops[..k], EventOf(ops[k]));
    HandsOutOnlyWhileOpen(Run(ops[..k]), ops[k]);
  }
}
