/** What the delivery worker keeps over every run, and that it gets done. */
module DeliveryProperties {
  import opened Options
  import opened DeliveryModel

  predicate Terminal(r: Row) {
    r.status == Sent || r.status == Failed || r.status == Skipped
  }

  /** What holds of every row between runs. */
  predicate GoodRow(r: Row, max: nat) {
    && r.attempts <= max
    && (r.status == Pending || r.status == Processing ==> r.attempts < max)
    && (r.status == Sent <==> r.sentAt.Some?)
  }

  function AcceptedFor(accepted: seq<nat>, id: nat): nat {
    if accepted == [] then 0
    else AcceptedFor(accepted[..|accepted| - 1], id) + (if accepted[|accepted| - 1] == id then 1 else 0)
  }

  /** The provider took exactly one message for the row if it is sent, none otherwise. */
  predicate Logged(s: State, i: nat)
    requires i < |s.rows|
  {
    AcceptedFor(s.accepted, s.rows[i].id) == if s.rows[i].status == Sent then 1 else 0
  }

  predicate DistinctIds(s: State) {
    && (forall i :: 0 <= i < |s.rows| ==> s.rows[i].id < s.created)
    && (forall i, j :: 0 <= i < j < |s.rows| ==> s.rows[i].id != s.rows[j].id)
  }

  /** Every row is good and logged, and no message was taken for a row that was never created. */
  ghost predicate Good(s: State, max: nat) {
    && DistinctIds(s)
    && (forall i :: 0 <= i < |s.rows| ==> GoodRow(s.rows[i], max) && Logged(s, i))
    && (forall id: nat :: id >= s.created ==> AcceptedFor(s.accepted, id) == 0)
  }

  /** Attempts still allowed, over all rows that are not finished. */
  function Left(r: Row, max: nat): int {
    if Terminal(r) then 0 else max - r.attempts
  }

  function Work(rows: seq<Row>, max: nat): int {
    if rows == [] then 0 else Work(rows[..|rows| - 1], max) + Left(rows[|rows| - 1], max)
  }

  lemma {:induction false} WorkConcat(a: seq<Row>, b: seq<Row>, max: nat)
    ensures Work(a + b, max) == Work(a, max) + Work(b, max)
  {
    if b == [] {
      assert a + b == a;
    } else {
      assert (a + b)[..|a + b| - 1] == a + b[..|b| - 1];
      WorkConcat(a, b[..|b| - 1], max);
    }
  }

  lemma WorkUpdate(rows: seq<Row>, i: nat, r: Row, max: nat)
    requires i < |rows|
    ensures Work(rows[i := r], max) == Work(rows, max) - Left(rows[i], max) + Left(r, max)
  {
    var a, b := rows[..i], rows[i + 1..];
    assert rows == a + [rows[i]] + b && rows[i := r] == a + [r] + b;
    WorkSplit(a, rows[i], b, max);
    WorkSplit(a, r, b, max);
  }

  lemma WorkSplit(a: seq<Row>, r: Row, b: seq<Row>, max: nat)
    ensures Work(a + [r] + b, max) == Work(a, max) + Left(r, max) + Work(b, max)
  {
    WorkConcat(a + [r], b, max);
    WorkConcat(a, [r], max);
    assert [r][..0] == [];
  }

  lemma {:induction false} WorkBounds(rows: seq<Row>, max: nat)
    requires forall i :: 0 <= i < |rows| ==> GoodRow(rows[i], max)
    ensures 0 <= Work(rows, max) <= |rows| * max
    ensures Work(rows, max) == 0 <==> forall i :: 0 <= i < |rows| ==> Terminal(rows[i])
  {
    if rows != [] {
      var n := |rows| - 1;
      WorkBounds(rows[..n], max);
      assert forall i :: 0 <= i < n ==> rows[..n][i] == rows[i];
      assert n * max + max == (n + 1) * max;
      assert GoodRow(rows[n], max);
    }
  }

  lemma AcceptedAppend(accepted: seq<nat>, k: nat, id: nat)
    ensures AcceptedFor(accepted + [k], id) == AcceptedFor(accepted, id) + (if k == id then 1 else 0)
  {
    assert (accepted + [k])[..|accepted|] == accepted;
  }

  // ---------------------------------------------------------------- one row

  lemma SettledIsGood(r: Row, provider: Provider, now: int, max: nat)
    requires GoodRow(r, max) && r.status == Processing && r.sentAt.None?
    ensures var result := SendDelivery(r, provider);
            var r' := Settle(r, result, now, max);
            && GoodRow(r', max) && r'.id == r.id && r'.attempts == r.attempts + 1
            && (r'.status == Sent <==> result.Decided? && result.called)
  {
  }

  /** The same rows in the same places, and those that had reached an end unchanged. */
  predicate SameRows(s: State, r: State) {
    && |r.rows| == |s.rows| && r.created == s.created
    && (forall i :: 0 <= i < |s.rows| ==> r.rows[i].id == s.rows[i].id)
    && (forall i :: 0 <= i < |s.rows| && Terminal(s.rows[i]) ==> r.rows[i] == s.rows[i])
  }

  /** From s to r the invariant is kept, finished rows stay, and at least n attempts are spent. */
  ghost predicate Spends(s: State, r: State, n: nat, max: nat) {
    Good(r, max) && SameRows(s, r) && Work(r.rows, max) <= Work(s.rows, max) - n
  }

  lemma SpendsChain(s: State, m: State, r: State, k: nat, n: nat, max: nat)
    requires Spends(s, m, k, max) && Spends(m, r, n, max)
    ensures Spends(s, r, k + n, max)
  {
    forall i | 0 <= i < |s.rows| && Terminal(s.rows[i]) ensures r.rows[i] == s.rows[i] {
      assert m.rows[i] == s.rows[i];
    }
  }

  /** Row i of the table replaced, with the provider's log kept in step and any clock reading. */
  predicate Replaces(s: State, i: nat, settled: Row, r: State)
    requires i < |s.rows|
  {
    && settled.id == s.rows[i].id && r.rows == s.rows[i := settled] && r.created == s.created
    && r.accepted == if settled.status == Sent then s.accepted + [settled.id] else s.accepted
  }

  lemma ReplaceLogs(s: State, i: nat, settled: Row, r: State, k: nat, max: nat)
    requires Good(s, max) && i < |s.rows| && !Terminal(s.rows[i]) && Replaces(s, i, settled, r)
    requires k < |s.rows|
    ensures Logged(r, k)
  {
    AcceptedAppend(s.accepted, settled.id, s.rows[k].id);
    assert Logged(s, k);
    if k != i { assert s.rows[k].id != s.rows[i].id; }
  }

  /** Replacing one unfinished row by a good one. */
  lemma {:induction false} ReplaceSpends(s: State, i: nat, settled: Row, r: State, n: nat, max: nat)
    requires Good(s, max) && i < |s.rows| && !Terminal(s.rows[i]) && Replaces(s, i, settled, r)
    requires GoodRow(settled, max) && settled.attempts == s.rows[i].attempts + n
    ensures Spends(s, r, n, max)
  {
    WorkUpdate(s.rows, i, settled, max);
    assert GoodRow(s.rows[i], max) && s.rows[i].id < s.created;
    forall k | 0 <= k < |r.rows| ensures GoodRow(r.rows[k], max) && Logged(r, k) {
      assert GoodRow(s.rows[k], max);
      ReplaceLogs(s, i, settled, r, k, max);
    }
    forall id: nat | id >= r.created ensures AcceptedFor(r.accepted, id) == 0 {
      AcceptedAppend(s.accepted, settled.id, id);
    }
  }

  lemma ProcessIs(w: World, s: State, i: nat)
    requires i < |s.rows| && Open(s.rows[i])
    ensures var begun := Begin(s.rows[i], w.clock(s.tick));
            var result := SendDelivery(begun, w.provider(s.tick));
            var r := Process(w, s, i);
            && r.rows == s.rows[i := Settle(begun, result, w.clock(s.tick + 1), w.maxAttempts)]
            && r.accepted == (if result.Decided? && result.called then s.accepted + [s.rows[i].id] else s.accepted)
            && r.created == s.created
  {
  }

  /** Processing an open row spends exactly one of its attempts. */
  lemma {:induction false} ProcessOpen(w: World, s: State, i: nat)
    requires Good(s, w.maxAttempts) && i < |s.rows| && Open(s.rows[i])
    ensures Spends(s, Process(w, s, i), 1, w.maxAttempts)
  {
    var begun := Begin(s.rows[i], w.clock(s.tick));
    var settled := Settle(begun, SendDelivery(begun, w.provider(s.tick)), w.clock(s.tick + 1), w.maxAttempts);
    assert GoodRow(s.rows[i], w.maxAttempts);
    ProcessIs(w, s, i);
    SettledIsGood(begun, w.provider(s.tick), w.clock(s.tick + 1), w.maxAttempts);
    ReplaceSpends(s, i, settled, Process(w, s, i), 1, w.maxAttempts);
  }

  lemma {:induction false} ProcessOthers(w: World, s: State, i: nat)
    requires i < |s.rows|
    ensures forall j :: 0 <= j < |s.rows| && j != i ==> Process(w, s, i).rows[j] == s.rows[j]
  {
  }

  // ---------------------------------------------------------------- one run

  lemma {:induction false} MarkSpends(s: State, idxs: seq<nat>, now: int, k: nat, max: nat)
    requires Good(s, max) && k <= |idxs|
    requires forall j :: 0 <= j < |idxs| ==> idxs[j] < |s.rows| && Open(s.rows[idxs[j]])
    ensures var r := s.(rows := MarkFirst(s.rows, idxs, now, k));
            && Spends(s, r, 0, max)
            && (forall j :: 0 <= j < |s.rows| ==> Open(r.rows[j]) == Open(s.rows[j]))
  {
    if k > 0 {
      MarkSpends(s, idxs, now, k - 1, max);
      var m := s.(rows := MarkFirst(s.rows, idxs, now, k - 1));
      var i := idxs[k - 1];
      var begun := Begin(m.rows[i], now);
      assert Open(m.rows[i]) && GoodRow(m.rows[i], max);
      ReplaceSpends(m, i, begun, m.(rows := m.rows[i := begun]), 0, max);
      SpendsChain(s, m, m.(rows := m.rows[i := begun]), 0, 0, max);
    }
  }

  lemma {:induction false} ProcessFirstSpends(w: World, s: State, idxs: seq<nat>, k: nat)
    requires Good(s, w.maxAttempts) && k <= |idxs|
    requires forall j :: 0 <= j < |idxs| ==> idxs[j] < |s.rows| && Open(s.rows[idxs[j]])
    requires forall i, j :: 0 <= i < j < |idxs| ==> idxs[i] < idxs[j]
    ensures var r := ProcessFirst(w, s, idxs, k);
            && Spends(s, r, k, w.maxAttempts)
            && (forall j :: k <= j < |idxs| ==> r.rows[idxs[j]] == s.rows[idxs[j]])
  {
    if k > 0 {
      ProcessFirstSpends(w, s, idxs, k - 1);
      var p := ProcessFirst(w, s, idxs, k - 1);
      assert p.rows[idxs[k - 1]] == s.rows[idxs[k - 1]];
      ProcessOpen(w, p, idxs[k - 1]);
      ProcessOthers(w, p, idxs[k - 1]);
      SpendsChain(s, p, Process(w, p, idxs[k - 1]), k - 1, 1, w.maxAttempts);
    }
  }

  function OpenCount(rows: seq<Row>, at: nat): nat
    requires at <= |rows|
    decreases |rows| - at
  {
    if at == |rows| then 0 else OpenCount(rows, at + 1) + (if Open(rows[at]) then 1 else 0)
  }

  lemma {:induction false} ClaimSize(rows: seq<Row>, at: nat, limit: nat)
    requires at <= |rows|
    ensures |Claimed(rows, at, limit)| == if OpenCount(rows, at) < limit then OpenCount(rows, at) else limit
    decreases |rows| - at
  {
    if at < |rows| {
      ClaimSize(rows, at + 1, limit);
      if limit > 0 { ClaimSize(rows, at + 1, limit - 1); }
    }
  }

  lemma {:induction false} ClaimedRows(rows: seq<Row>, at: nat, limit: nat)
    requires at <= |rows|
    ensures var idxs := Claimed(rows, at, limit);
            && (forall k :: 0 <= k < |idxs| ==> at <= idxs[k] < |rows| && Open(rows[idxs[k]]))
            && (forall j, k :: 0 <= j < k < |idxs| ==> idxs[j] < idxs[k])
    decreases |rows| - at
  {
    if at < |rows| && limit > 0 {
      if Open(rows[at]) {
        ClaimedRows(rows, at + 1, limit - 1);
        assert Claimed(rows, at, limit) == [at] + Claimed(rows, at + 1, limit - 1);
      } else {
        ClaimedRows(rows, at + 1, limit);
        assert Claimed(rows, at, limit) == Claimed(rows, at + 1, limit);
      }
    }
  }

  lemma {:induction false} ClaimSpends(w: World, s: State, batch: nat)
    requires Good(s, w.maxAttempts)
    ensures var idxs := Claimed(s.rows, 0, batch);
            var m := ClaimBatch(w, s, idxs);
            && Spends(s, m, 0, w.maxAttempts)
            && (forall j :: 0 <= j < |idxs| ==> Open(m.rows[idxs[j]]))
  {
    var idxs := Claimed(s.rows, 0, batch);
    var at: nat := 0;
    ClaimedRows(s.rows, at, batch);
    assert idxs == Claimed(s.rows, at, batch);
    MarkSpends(s, idxs, w.clock(s.tick), |idxs|, w.maxAttempts);
    var marked := s.(rows := MarkFirst(s.rows, idxs, w.clock(s.tick), |idxs|));
    var m := ClaimBatch(w, s, idxs);
    forall i | 0 <= i < |m.rows| ensures GoodRow(m.rows[i], w.maxAttempts) && Logged(m, i) {
      assert Logged(marked, i);
    }
  }

  /** One run keeps the invariant and every finished row, and spends at least one attempt for each of
      the rows it claims: as many as the batch allows, or all that are open. */
  lemma {:induction false} RunSpends(w: World, s: State, batch: nat)
    requires Good(s, w.maxAttempts)
    ensures Spends(s, RunPending(w, s, batch),
                   if OpenCount(s.rows, 0) < batch then OpenCount(s.rows, 0) else batch, w.maxAttempts)
  {
    var idxs := Claimed(s.rows, 0, batch);
    ClaimSize(s.rows, 0, batch);
    ClaimedRows(s.rows, 0, batch);
    ClaimSpends(w, s, batch);
    var m := ClaimBatch(w, s, idxs);
    ProcessFirstSpends(w, m, idxs, |idxs|);
    SpendsChain(s, m, ProcessFirst(w, m, idxs, |idxs|), 0, |idxs|, w.maxAttempts);
  }

  lemma {:induction false} SomeOpen(rows: seq<Row>, at: nat, i: nat)
    requires at <= i < |rows| && Open(rows[i])
    ensures OpenCount(rows, at) >= 1
    decreases i - at
  {
    if at < i { SomeOpen(rows, at + 1, i); }
  }

  // ---------------------------------------------------------------- new rows

  lemma InsertedWork(rows: seq<Row>, p: nat, r: Row, max: nat)
    requires p <= |rows|
    ensures Work(Inserted(rows, p, r), max) == Work(rows, max) + Left(r, max)
  {
    var a, b := rows[..p], rows[p..];
    assert rows == a + b && Inserted(rows, p, r) == a + [r] + b;
    WorkSplit(a, r, b, max);
    WorkConcat(a, b, max);
  }

  /** Where each row of the longer table comes from. */
  lemma InsertedAt(rows: seq<Row>, p: nat, r: Row, i: nat)
    requires p <= |rows| && i <= |rows|
    ensures |Inserted(rows, p, r)| == |rows| + 1
    ensures Inserted(rows, p, r)[i] == if i < p then rows[i] else if i == p then r else rows[i - 1]
  {
  }

  lemma InsertedIds(s: State, p: nat, r: Row, i: nat, j: nat)
    requires DistinctIds(s) && p <= |s.rows| && r.id == s.created && i < j <= |s.rows|
    ensures Inserted(s.rows, p, r)[i].id != Inserted(s.rows, p, r)[j].id
  {
    InsertedAt(s.rows, p, r, i);
    InsertedAt(s.rows, p, r, j);
  }

  lemma InsertedKeeps(rows: seq<Row>, p: nat, r: Row, i: nat)
    requires p <= |rows| && i < |rows|
    ensures rows[i] in Inserted(rows, p, r)
  {
    InsertedAt(rows, p, r, if i < p then i else i + 1);
  }

  lemma AnnounceIsGood(s: State, position: nat, d: Draft, max: nat)
    requires Good(s, max) && max >= 1
    ensures var r := Announce(s, position, d);
            && Good(r, max) && |r.rows| == |s.rows| + 1
            && Work(r.rows, max) == Work(s.rows, max) + max
  {
    var p := if position <= |s.rows| then position else |s.rows|;
    var r := Announce(s, position, d);
    var row := NewRow(s.created, d);
    InsertedWork(s.rows, p, row, max);
    forall i | 0 <= i < |r.rows| ensures GoodRow(r.rows[i], max) && Logged(r, i) && r.rows[i].id < r.created {
      InsertedAt(s.rows, p, row, i);
      var k := if i < p then i else i - 1;
      if i != p { assert GoodRow(s.rows[k], max) && Logged(s, k); }
    }
    forall i, j | 0 <= i < j < |r.rows| ensures r.rows[i].id != r.rows[j].id {
      InsertedIds(s, p, row, i, j);
    }
  }

  // ---------------------------------------------------------------- every run

  /** Rows that have reached an end are still there as they were. */
  predicate EndsStay(s: State, r: State) {
    forall i :: 0 <= i < |s.rows| && Terminal(s.rows[i]) ==> s.rows[i] in r.rows
  }

  lemma {:induction false} StepKeepsGood(w: World, s: State, op: Op)
    requires Good(s, w.maxAttempts) && w.maxAttempts >= 1
    ensures var r := Apply(w, s, op);
            && Good(r, w.maxAttempts) && EndsStay(s, r)
            && |r.rows| == |s.rows| + (if op.AnnounceOp? then 1 else 0)
  {
    match op
    case AnnounceOp(position, d) =>
      AnnounceIsGood(s, position, d, w.maxAttempts);
      var p := if position <= |s.rows| then position else |s.rows|;
      forall i | 0 <= i < |s.rows| ensures s.rows[i] in Announce(s, position, d).rows {
        InsertedKeeps(s.rows, p, NewRow(s.created, d), i);
      }
    case WorkOp(batch) =>
      RunSpends(w, s, batch);
      var r := RunPending(w, s, batch);
      forall i | 0 <= i < |s.rows| && Terminal(s.rows[i]) ensures s.rows[i] in r.rows {
        assert r.rows[i] == s.rows[i];
      }
  }

  /** Over every sequence of announcements and worker runs: a pending or processing row has attempts
      left, no row is tried more often than allowed, a row is sent exactly when it has a sending time and
      exactly then did the provider take one message for it, and finished rows no longer change. */
  lemma {:induction false} DeliveryInvariant(w: World, ops: seq<Op>)
    requires w.maxAttempts >= 1
    ensures Good(Run(w, ops), w.maxAttempts)
    ensures ops != [] ==> EndsStay(Run(w, ops[..|ops| - 1]), Run(w, ops))
  {
    if ops != [] {
      DeliveryInvariant(w, ops[..|ops| - 1]);
      StepKeepsGood(w, Run(w, ops[..|ops| - 1]), ops[|ops| - 1]);
    }
  }

  predicate Unfinished(rows: seq<Row>) {
    exists i :: 0 <= i < |rows| && !Terminal(rows[i])
  }

  /** The worker runs, with a batch of at least one, that found an unfinished row. */
  function BusyRuns(w: World, ops: seq<Op>): nat {
    if ops == [] then 0
    else
      var op := ops[|ops| - 1];
      BusyRuns(w, ops[..|ops| - 1]) +
      (if op.WorkOp? && op.batch >= 1 && Unfinished(Run(w, ops[..|ops| - 1]).rows) then 1 else 0)
  }

  lemma {:induction false} BusyRunSpends(w: World, s: State, batch: nat)
    requires Good(s, w.maxAttempts) && batch >= 1
    ensures Work(RunPending(w, s, batch).rows, w.maxAttempts) <=
            Work(s.rows, w.maxAttempts) - (if Unfinished(s.rows) then 1 else 0)
  {
    RunSpends(w, s, batch);
    if i :| 0 <= i < |s.rows| && !Terminal(s.rows[i]) {
      assert GoodRow(s.rows[i], w.maxAttempts);
      SomeOpen(s.rows, 0, i);
    }
  }

  /** However announcements and runs alternate, at most N * MAX_ATTEMPTS runs find anything unfinished,
      where N is the number of rows ever created, although the claim always prefers low keys. */
  lemma {:induction false} BusyRunsAreBounded(w: World, ops: seq<Op>)
    requires w.maxAttempts >= 1
    ensures var s := Run(w, ops);
            Work(s.rows, w.maxAttempts) >= 0
                && Work(s.rows, w.maxAttempts) + BusyRuns(w, ops) <= |s.rows| * w.maxAttempts
  {
    if ops != [] {
      var init := ops[..|ops| - 1];
      var s, max := Run(w, init), w.maxAttempts;
      BusyRunsAreBounded(w, init);
      DeliveryInvariant(w, init);
      match ops[|ops| - 1]
      case AnnounceOp(position, d) =>
        AnnounceIsGood(s, position, d, max);
        assert (|s.rows| + 1) * max == |s.rows| * max + max;
      case WorkOp(batch) =>
        RunSpends(w, s, batch);
        if batch >= 1 { BusyRunSpends(w, s, batch); }
    }
    DeliveryInvariant(w, ops);
    WorkBounds(Run(w, ops).rows, w.maxAttempts);
  }

  lemma {:induction false} OneMoreRun(w: World, ops: seq<Op>, op: Op)
    requires w.maxAttempts >= 1 && op.WorkOp? && op.batch >= 1
    ensures var work := Work(Run(w, ops).rows, w.maxAttempts);
            && Work(Run(w, ops + [op]).rows, w.maxAttempts) <= (if work >= 1 then work - 1 else 0)
            && |Run(w, ops + [op]).rows| == |Run(w, ops).rows|
  {
    var s := Run(w, ops);
    assert (ops + [op])[..|ops|] == ops;
    DeliveryInvariant(w, ops);
    WorkBounds(s.rows, w.maxAttempts);
    RunSpends(w, s, op.batch);
    BusyRunSpends(w, s, op.batch);
  }

  lemma {:induction false} WorkRunsOut(w: World, ops: seq<Op>, more: seq<Op>)
    requires w.maxAttempts >= 1 && Work(Run(w, ops).rows, w.maxAttempts) >= 0
    requires forall k :: 0 <= k < |more| ==> more[k].WorkOp? && more[k].batch >= 1
    ensures var left := Work(Run(w, ops).rows, w.maxAttempts) - |more|;
            && Work(Run(w, ops + more).rows, w.maxAttempts) <= (if left < 0 then 0 else left)
            && |Run(w, ops + more).rows| == |Run(w, ops).rows|
  {
    if more == [] {
      assert ops + more == ops;
    } else {
      var n := |more| - 1;
      assert ops + more == (ops + more[..n]) + [more[n]];
      WorkRunsOut(w, ops, more[..n]);
      OneMoreRun(w, ops + more[..n], more[n]);
    }
  }

  /** After any history, as many further runs as the N rows there are times MAX_ATTEMPTS, with a batch of
      at least one, finish every row. */
  lemma {:induction false} EveryRowIsFinished(w: World, ops: seq<Op>, more: seq<Op>)
    requires w.maxAttempts >= 1
    requires forall k :: 0 <= k < |more| ==> more[k].WorkOp? && more[k].batch >= 1
    requires |more| >= |Run(w, ops).rows| * w.maxAttempts
    ensures var r := Run(w, ops + more);
            |r.rows| == |Run(w, ops).rows| && forall i :: 0 <= i < |r.rows| ==> Terminal(r.rows[i])
  {
    DeliveryInvariant(w, ops);
    WorkBounds(Run(w, ops).rows, w.maxAttempts);
    WorkRunsOut(w, ops, more);
    DeliveryInvariant(w, ops + more);
    WorkBounds(Run(w, ops + more).rows, w.maxAttempts);
  }
}
