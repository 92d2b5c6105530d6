/** The webhook runtime as the source has it: module-level state changed step by step. Each method is
    proved against the transition functions of WebhookRetry. */
module WebhookRuntime {
  import opened Options
  import opened WebhookRetry

  class RetryRuntime {
    const channel: Channel
    var envelopes: seq<seq<Message>>
    var status: seq<Status>
    var queue: seq<Entry>
    var claimed: set<string>
    var events: seq<Event>
    ghost var passes: seq<Entry>
    var tick: nat

    ghost function Abs(): State
      reads this
    {
      State(envelopes, status, queue, claimed, events, passes, tick)
    }

    constructor (ch: Channel)
      ensures channel == ch && Abs() == EmptyState
    {
      channel := ch;
      envelopes, status, queue, claimed, events, passes, tick := [], [], [], {}, [], [], 0;
    }

    method ClaimIdempotencyKey(m: Message) returns (won: bool)
      modifies this`claimed
      ensures var key := IdempotencyKey(channel, m);
              && won == (key.None? || key.value !in old(claimed))
              && claimed == if key.Some? then old(claimed) + {key.value} else old(claimed)
    {
      var key := IdempotencyKey(channel, m);
      if key.None? {
        return true;
      }
      won := key.value !in claimed;
      claimed := claimed + {key.value};
    }

    method ScheduleRetry(now: int, id: nat, attempt: nat)
      modifies this`queue
      ensures queue == Insert(old(queue), Entry(now + Backoff(attempt) * MICROSECONDS, id, attempt))
    {
      queue := Insert(queue, Entry(now + Backoff(attempt) * MICROSECONDS, id, attempt));
    }

    /** The body of the message loop: dedupe check, handling, and the terminal record. */
    method ProcessMessage(w: World, id: nat, attempt: nat, enforce: bool, i: nat) returns (verdict: Verdict)
      requires id < |envelopes| && i < |envelopes[id]|
      modifies this`queue, this`claimed, this`events, this`tick
      ensures Abs() == Handle(channel, w, old(Abs()), id, attempt, enforce, i)
      ensures events == old(events) + [Event(id, i, attempt, verdict)]
    {
      verdict := DuplicateSkipped;
      var unclaimed := true;
      if enforce {
        unclaimed := ClaimIdempotencyKey(envelopes[id][i]);
      }
      if unclaimed {
        verdict := Judge(channel, w.outcome(tick), attempt);
        if verdict == Rescheduled {
          ScheduleRetry(w.clock(tick), id, attempt + 1);
        }
        tick := tick + 1;
      }
      events := events + [Event(id, i, attempt, verdict)];
    }

    /** One pass: the message loop with its two failure flags. */
    method ProcessEnvelope(w: World, id: nat, attempt: nat, enforce: bool, ghost entry: Entry)
      requires id < |envelopes| == |status|
      requires entry.envelopeId == id && entry.attempt == attempt
      modifies this
      ensures Abs() == Pass(channel, w, old(Abs()), entry, enforce)
    {
      status := status[id := Processing];
      passes := passes + [entry];
      if envelopes[id] == [] {
        status := status[id := Ignored];
        return;
      }
      ghost var s0 := Abs();
      ghost var base := |events|;
      var hadNonrecoverable, hadRecoverable := false, false;
      var i := 0;
      while i < |envelopes[id]|
        invariant envelopes == s0.envelopes && status == s0.status && passes == s0.passes
        invariant i <= |envelopes[id]| && base <= |events|
        invariant Abs() == HandleFirst(channel, w, s0, id, attempt, enforce, i)
        invariant hadNonrecoverable == Saw(events[base..], DeadLettered)
        invariant hadRecoverable == Saw(events[base..], Rescheduled)
      {
        ghost var before := events;
        var verdict := ProcessMessage(w, id, attempt, enforce, i);
        SawAppend(before[base..], Event(id, i, attempt, verdict));
        assert events[base..] == before[base..] + [Event(id, i, attempt, verdict)];
        hadNonrecoverable := hadNonrecoverable || verdict == DeadLettered;
        hadRecoverable := hadRecoverable || verdict == Rescheduled;
        i := i + 1;
      }
      if hadNonrecoverable {
        status := status[id := Failed];
      } else if hadRecoverable {
        status := status[id := Queued];
      } else {
        status := status[id := Processed];
      }
    }

    /** Pops and processes while the head of the queue is due; returns how many entries it took. */
    method ProcessRetryQueue(w: World) returns (processed: nat)
      requires Sane(Abs())
      modifies this
      ensures Abs() == Apply(channel, w, old(Abs()), Drain)
      ensures |passes| == |old(passes)| + processed
    {
      processed := 0;
      var now := w.clock(tick);
      tick := tick + 1;
      while queue != [] && queue[0].runAfter <= now
        invariant Sane(Abs())
        invariant DrainAt(channel, w, Abs(), now) == Apply(channel, w, old(Abs()), Drain)
        invariant |passes| == |old(passes)| + processed
        decreases Weight(envelopes, queue, None)
      {
        ghost var s := Abs();
        PopPassSane(channel, w, s);
        PopPassLowersWeight(channel, w, s, None);
        var entry := queue[0];
        queue := queue[1..];
        ProcessEnvelope(w, entry.envelopeId, entry.attempt, false, entry);
        processed := processed + 1;
      }
    }

    /** The webhook endpoint after its checks: persist the envelope, then process it. */
    method Receive(w: World, messages: seq<Message>, enforce: bool)
      requires Sane(Abs())
      modifies this
      ensures Abs() == Apply(channel, w, old(Abs()), Deliver(messages, enforce))
      ensures Sane(Abs())
    {
      var id := |envelopes|;
      envelopes := envelopes + [messages];
      status := status + [Queued];
      ProcessEnvelope(w, id, 0, enforce, Entry(0, id, 0));
    }
  }

  lemma SawAppend(events: seq<Event>, e: Event)
    ensures forall v :: Saw(events + [e], v) <==> Saw(events, v) || e.verdict == v
  {
    forall v ensures Saw(events + [e], v) <==> Saw(events, v) || e.verdict == v {
      assert (events + [e])[|events|] == e;
      if j :| 0 <= j < |events| && events[j].verdict == v {
        assert (events + [e])[j].verdict == v;
      }
    }
  }
}
