/** The worker as the source has it, proved against DeliveryModel. */
module DeliveryWorker {
  import opened Options
  import opened DeliveryModel

  class Worker {
    var rows: seq<Row>
    ghost var accepted: seq<nat>
    var tick: nat
    ghost var created: nat

    ghost function Abs(): State
      reads this
    {
      State(rows, accepted, tick, created)
    }

    /** Marks the row, sends, and writes back how it ended; true when the message counts as sent. */
    method ProcessAnnouncementDelivery(w: World, i: nat) returns (sent: bool)
      requires i < |rows|
      modifies this
      ensures Abs() == Process(w, old(Abs()), i)
      ensures |accepted| == |old(accepted)| + (if sent then 1 else 0)
    {
      if rows[i].sentAt.Some? || rows[i].status == Sent {
        return false;
      }
      rows := rows[i := rows[i].(status := Processing, startedAt := Some(w.clock(tick)))];
      var result := SendDelivery(rows[i], w.provider(tick));
      var r := rows[i].(attempts := rows[i].attempts + 1, startedAt := None);
      match result {
        case Decided(SentTemplate, called) =>
          r := r.(status := Sent, sentAt := Some(w.clock(tick + 1)));
          if called {
            accepted := accepted + [r.id];
          }
        case Decided(SkippedNoOptIn, _) =>
          r := r.(status := Skipped);
        case Decided(FailedTemplateRequired, _) =>
          r := r.(status := Failed);
        case Raised(transient) =>
          r := r.(status := if transient && r.attempts < w.maxAttempts then Pending else Failed);
      }
      rows := rows[i := r];
      tick := tick + 2;
      sent := r.status == Sent;
    }

    method ClaimPendingDeliveries(w: World, batch: nat) returns (idxs: seq<nat>)
      modifies this`rows, this`tick
      ensures idxs == Claimed(old(rows), 0, batch)
      ensures Abs() == ClaimBatch(w, old(Abs()), idxs)
    {
      idxs := Claimed(rows, 0, batch);
      var now := w.clock(tick);
      var k := 0;
      while k < |idxs|
        invariant k <= |idxs| && |rows| == |old(rows)| && tick == old(tick)
        invariant rows == MarkFirst(old(rows), idxs, now, k)
      {
        rows := rows[idxs[k] := Begin(rows[idxs[k]], now)];
        k := k + 1;
      }
      tick := tick + 1;
    }

    method RunPendingAnnouncementDeliveries(w: World, batch: nat) returns (processed: nat)
      modifies this
      ensures Abs() == RunPending(w, old(Abs()), batch)
      ensures |accepted| == |old(accepted)| + processed
    {
      var idxs := ClaimPendingDeliveries(w, batch);
      ghost var claimed := Abs();
      processed := 0;
      var k := 0;
      while k < |idxs|
        invariant k <= |idxs| && |rows| == |claimed.rows|
        invariant Abs() == ProcessFirst(w, claimed, idxs, k)
        invariant |accepted| == |old(accepted)| + processed
      {
        var sent := ProcessAnnouncementDelivery(w, idxs[k]);
        if sent {
          processed := processed + 1;
        }
        k := k + 1;
      }
    }
  }
}
