/** What a pass will do to its envelope, foretold from the messages, the claimed keys and the world. */
module WebhookVerdicts {
  import opened Options
  import opened WebhookRetry
  import opened WebhookRetryProperties

  // ---------------------------------------------------------------- what a pass will record

  /** Whether a pass will handle message i: always without the dedupe check, else when its key is free and
      no earlier message of the envelope has it. */
  predicate WillHandle(ch: Channel, messages: seq<Message>, claimed: set<string>, enforce: bool, i: nat)
    requires i < |messages|
  {
    var key := IdempotencyKey(ch, messages[i]);
    !enforce || key.None? ||
    (key.value !in claimed && forall j :: 0 <= j < i ==> IdempotencyKey(ch, messages[j]) != key)
  }

  function HandledBefore(ch: Channel, messages: seq<Message>, claimed: set<string>, enforce: bool, k: nat): nat
    requires k <= |messages|
  {
    if k == 0 then 0
    else
      HandledBefore(ch, messages, claimed, enforce, k - 1) +
      (if WillHandle(ch, messages, claimed, enforce, k - 1) then 1 else 0)
  }

  /** The verdict on message i, from the messages, the claimed keys and the world alone. */
  function VerdictAt(ch: Channel, w: World, messages: seq<Message>, claimed: set<string>, enforce: bool,
                     tick: nat, attempt: nat, i: nat): Verdict
    requires i < |messages|
  {
    if WillHandle(ch, messages, claimed, enforce, i)
    then Judge(ch, w.outcome(tick + HandledBefore(ch, messages, claimed, enforce, i)), attempt)
    else DuplicateSkipped
  }

  predicate ClaimedBy(ch: Channel, messages: seq<Message>, k: nat, x: string)
    requires k <= |messages|
  {
    exists j :: 0 <= j < k && IdempotencyKey(ch, messages[j]) == Some(x)
  }

  lemma {:induction false} ClaimsAfter(ch: Channel, w: World, s: State, id: nat, attempt: nat, enforce: bool,
                                       k: nat, x: string)
    requires id < |s.envelopes| && k <= |s.envelopes[id]|
    ensures x in HandleFirst(ch, w, s, id, attempt, enforce, k).claimed <==>
            x in s.claimed || (enforce && ClaimedBy(ch, s.envelopes[id], k, x))
  {
    if k > 0 {
      ClaimsAfter(ch, w, s, id, attempt, enforce, k - 1, x);
      assert ClaimedBy(ch, s.envelopes[id], k, x) <==>
             ClaimedBy(ch, s.envelopes[id], k - 1, x) || IdempotencyKey(ch, s.envelopes[id][k - 1]) == Some(x);
    }
  }

  /** The message loop skips and handles as foreseen. */
  lemma HandlesAsForeseen(ch: Channel, w: World, s: State, id: nat, attempt: nat, enforce: bool, k: nat)
    requires id < |s.envelopes| && k < |s.envelopes[id]|
    ensures var key := IdempotencyKey(ch, s.envelopes[id][k]);
            var claimed := HandleFirst(ch, w, s, id, attempt, enforce, k).claimed;
            WillHandle(ch, s.envelopes[id], s.claimed, enforce, k) <==>
            !(enforce && key.Some? && key.value in claimed)
  {
    var key := IdempotencyKey(ch, s.envelopes[id][k]);
    if key.Some? { ClaimsAfter(ch, w, s, id, attempt, enforce, k, key.value); }
  }

  lemma {:induction false} TickAfter(ch: Channel, w: World, s: State, id: nat, attempt: nat, enforce: bool, k: nat)
    requires id < |s.envelopes| && k <= |s.envelopes[id]|
    ensures HandleFirst(ch, w, s, id, attempt, enforce, k).tick ==
            s.tick + HandledBefore(ch, s.envelopes[id], s.claimed, enforce, k)
  {
    if k > 0 {
      TickAfter(ch, w, s, id, attempt, enforce, k - 1);
      HandlesAsForeseen(ch, w, s, id, attempt, enforce, k - 1);
    }
  }

  lemma {:induction false} VerdictsAre(ch: Channel, w: World, s: State, id: nat, attempt: nat, enforce: bool, k: nat,
                                       j: nat)
    requires id < |s.envelopes| && j < k <= |s.envelopes[id]|
    ensures HandleFirst(ch, w, s, id, attempt, enforce, k).events[|s.events| + j].verdict ==
            VerdictAt(ch, w, s.envelopes[id], s.claimed, enforce, s.tick, attempt, j)
  {
    if j < k - 1 {
      VerdictsAre(ch, w, s, id, attempt, enforce, k - 1, j);
    } else {
      TickAfter(ch, w, s, id, attempt, enforce, k - 1);
      HandlesAsForeseen(ch, w, s, id, attempt, enforce, k - 1);
    }
  }

  /** Some message of the envelope will get the verdict. */
  predicate Foreseen(ch: Channel, w: World, messages: seq<Message>, claimed: set<string>, enforce: bool,
                     tick: nat, attempt: nat, v: Verdict)
  {
    exists i :: 0 <= i < |messages| && VerdictAt(ch, w, messages, claimed, enforce, tick, attempt, i) == v
  }

  lemma SeenIffForeseen(ch: Channel, w: World, s: State, id: nat, attempt: nat, enforce: bool, v: Verdict)
    requires id < |s.envelopes|
    ensures var n := |s.envelopes[id]|;
            Saw(HandleFirst(ch, w, s, id, attempt, enforce, n).events[|s.events|..], v) <==>
            Foreseen(ch, w, s.envelopes[id], s.claimed, enforce, s.tick, attempt, v)
  {
    var messages := s.envelopes[id];
    var written := HandleFirst(ch, w, s, id, attempt, enforce, |messages|).events[|s.events|..];
    forall j | 0 <= j < |messages|
      ensures written[j].verdict == VerdictAt(ch, w, messages, s.claimed, enforce, s.tick, attempt, j)
    {
      VerdictsAre(ch, w, s, id, attempt, enforce, |messages|, j);
    }
  }

  predicate NoRescheduling(events: seq<Event>, base: nat) {
    forall j :: base <= j < |events| ==> events[j].verdict != Rescheduled
  }

  lemma {:induction false} NothingRescheduled(ch: Channel, w: World, s: State, id: nat, attempt: nat, enforce: bool,
                                              k: nat)
    requires id < |s.envelopes| && k <= |s.envelopes[id]|
    requires NoRescheduling(HandleFirst(ch, w, s, id, attempt, enforce, k).events, |s.events|)
    ensures HandleFirst(ch, w, s, id, attempt, enforce, k).queue == s.queue
  {
    if k > 0 {
      var p := HandleFirst(ch, w, s, id, attempt, enforce, k - 1);
      var r := HandleFirst(ch, w, s, id, attempt, enforce, k);
      assert r.events == p.events + [r.events[|p.events|]];
      assert forall j :: 0 <= j < |p.events| ==> p.events[j] == r.events[j];
      NothingRescheduled(ch, w, s, id, attempt, enforce, k - 1);
    }
  }

  /** After the message loop the envelope is queued exactly when it was before or a message was rescheduled. */
  lemma WaitsIffRescheduled(ch: Channel, w: World, s: State, id: nat, attempt: nat, enforce: bool)
    requires id < |s.envelopes|
    ensures var r := HandleFirst(ch, w, s, id, attempt, enforce, |s.envelopes[id]|);
            Waiting(r.queue, id) <==> Waiting(s.queue, id) || Saw(r.events[|s.events|..], Rescheduled)
  {
    var n := |s.envelopes[id]|;
    var r := HandleFirst(ch, w, s, id, attempt, enforce, n);
    var written := r.events[|s.events|..];
    HandleFirstQueue(ch, w, s, id, attempt, enforce, n);
    if Saw(written, Rescheduled) {
      var j :| 0 <= j < |written| && written[j].verdict == Rescheduled;
      RescheduledWaits(ch, w, s, id, attempt, enforce, n, j);
    } else {
      assert forall j :: |s.events| <= j < |r.events| ==> r.events[j] == written[j - |s.events|];
      NothingRescheduled(ch, w, s, id, attempt, enforce, n);
    }
  }

  /** What each status on file means. A pass leaves its envelope ignored exactly when it has no messages,
      failed exactly when a message is bound to be dead-lettered, queued exactly when one is bound to be
      rescheduled and none to be dead-lettered, and processed exactly when there are messages and neither. */
  lemma StatusIff(ch: Channel, w: World, s: State, entry: Entry, enforce: bool)
    requires entry.envelopeId < |s.envelopes| == |s.status|
    ensures var status := Pass(ch, w, s, entry, enforce).status[entry.envelopeId];
            var messages := s.envelopes[entry.envelopeId];
            var dead := Foreseen(ch, w, messages, s.claimed, enforce, s.tick, entry.attempt, DeadLettered);
            var again := Foreseen(ch, w, messages, s.claimed, enforce, s.tick, entry.attempt, Rescheduled);
            && (status == Ignored <==> messages == [])
            && (status == Failed <==> dead)
            && (status == Queued <==> again && !dead)
            && (status == Processed <==> messages != [] && !again && !dead)
  {
    var id := entry.envelopeId;
    var s0 := Begin(s, id, entry);
    SeenIffForeseen(ch, w, s0, id, entry.attempt, enforce, DeadLettered);
    SeenIffForeseen(ch, w, s0, id, entry.attempt, enforce, Rescheduled);
  }

  /** A pass leaves its envelope on file as processed and all the same queued exactly when every message
      completes or is skipped, and an older entry of the envelope waits. */
  lemma ProcessedYetQueuedIff(ch: Channel, w: World, s: State, entry: Entry, enforce: bool)
    requires entry.envelopeId < |s.envelopes| == |s.status|
    ensures var r := Pass(ch, w, s, entry, enforce);
            var id, messages := entry.envelopeId, s.envelopes[entry.envelopeId];
            r.status[id] == Processed && Waiting(r.queue, id) <==>
            && messages != [] && Waiting(s.queue, id)
            && !Foreseen(ch, w, messages, s.claimed, enforce, s.tick, entry.attempt, DeadLettered)
            && !Foreseen(ch, w, messages, s.claimed, enforce, s.tick, entry.attempt, Rescheduled)
  {
    var id := entry.envelopeId;
    var s0 := Begin(s, id, entry);
    StatusIff(ch, w, s, entry, enforce);
    SeenIffForeseen(ch, w, s0, id, entry.attempt, enforce, Rescheduled);
    WaitsIffRescheduled(ch, w, s0, id, entry.attempt, enforce);
  }

  /** A just delivered envelope that is processed waits for nothing. */
  lemma DeliveredProcessedIsDone(ch: Channel, w: World, s: State, messages: seq<Message>, enforce: bool)
    requires Sane(s)
    ensures var r := Apply(ch, w, s, Deliver(messages, enforce));
            && |s.envelopes| < |r.status|
            && (r.status[|s.envelopes|] == Processed ==> !Waiting(r.queue, |s.envelopes|))
  {
    ProcessedYetQueuedIff(ch, w, Admit(s, messages), Entry(0, |s.envelopes|, 0), enforce);
  }

  /** The other way round the status does not tell. A pass, the first or a retry, leaves its envelope on
      file as failed and all the same queued exactly when one of its messages is bound to be dead-lettered
      and another to be rescheduled, or the envelope has a further entry in the queue. */
  lemma FailedYetQueuedIff(ch: Channel, w: World, s: State, entry: Entry, enforce: bool)
    requires entry.envelopeId < |s.envelopes| == |s.status|
    ensures var r := Pass(ch, w, s, entry, enforce);
            var id, messages := entry.envelopeId, s.envelopes[entry.envelopeId];
            r.status[id] == Failed && Waiting(r.queue, id) <==>
            && Foreseen(ch, w, messages, s.claimed, enforce, s.tick, entry.attempt, DeadLettered)
            && (|| Waiting(s.queue, id)
                || Foreseen(ch, w, messages, s.claimed, enforce, s.tick, entry.attempt, Rescheduled))
  {
    var id := entry.envelopeId;
    var s0 := Begin(s, id, entry);
    SeenIffForeseen(ch, w, s0, id, entry.attempt, enforce, DeadLettered);
    SeenIffForeseen(ch, w, s0, id, entry.attempt, enforce, Rescheduled);
    WaitsIffRescheduled(ch, w, s0, id, entry.attempt, enforce);
  }

  /** Some message handled at a tick from `tick` on, n of them, gets the verdict. */
  predicate JudgedWithin(ch: Channel, w: World, tick: nat, n: nat, attempt: nat, v: Verdict) {
    exists t :: tick <= t < tick + n && Judge(ch, w.outcome(t), attempt) == v
  }

  lemma {:induction false} AllHandled(ch: Channel, messages: seq<Message>, claimed: set<string>, k: nat)
    requires k <= |messages|
    ensures HandledBefore(ch, messages, claimed, false, k) == k
  {
    if k > 0 { AllHandled(ch, messages, claimed, k - 1); }
  }

  lemma ForeseenWithoutDedupe(ch: Channel, w: World, messages: seq<Message>, claimed: set<string>,
                              tick: nat, attempt: nat, v: Verdict)
    ensures Foreseen(ch, w, messages, claimed, false, tick, attempt, v) <==>
            JudgedWithin(ch, w, tick, |messages|, attempt, v)
  {
    forall i | 0 <= i < |messages|
      ensures VerdictAt(ch, w, messages, claimed, false, tick, attempt, i) == Judge(ch, w.outcome(tick + i), attempt)
    {
      AllHandled(ch, messages, claimed, i);
    }
    if t :| tick <= t < tick + |messages| && Judge(ch, w.outcome(t), attempt) == v {
      assert VerdictAt(ch, w, messages, claimed, false, tick, attempt, t - tick) == v;
    }
  }

  /** Every retry is such a pass, without the dedupe check: its envelope ends failed yet queued exactly when
      some outcome in the pass is dead-lettered, and some is rescheduled or another entry waits. */
  lemma RetriedFailedYetQueuedIff(ch: Channel, w: World, s: State)
    requires Sane(s) && s.queue != []
    ensures var e := s.queue[0];
            var r := PopPass(ch, w, s);
            var n := |s.envelopes[e.envelopeId]|;
            r.status[e.envelopeId] == Failed && Waiting(r.queue, e.envelopeId) <==>
            && JudgedWithin(ch, w, s.tick, n, e.attempt, DeadLettered)
            && (|| Waiting(s.queue[1..], e.envelopeId)
                || JudgedWithin(ch, w, s.tick, n, e.attempt, Rescheduled))
  {
    var e := s.queue[0];
    FailedYetQueuedIff(ch, w, s.(queue := s.queue[1..]), e, false);
    ForeseenWithoutDedupe(ch, w, s.envelopes[e.envelopeId], s.claimed, s.tick, e.attempt, DeadLettered);
    ForeseenWithoutDedupe(ch, w, s.envelopes[e.envelopeId], s.claimed, s.tick, e.attempt, Rescheduled);
  }

  /** A just delivered envelope has no other entry. */
  lemma DeliveredFailedYetQueuedIff(ch: Channel, w: World, s: State, messages: seq<Message>, enforce: bool)
    requires Sane(s)
    ensures var r := Apply(ch, w, s, Deliver(messages, enforce));
            && |s.envelopes| < |r.status|
            && (r.status[|s.envelopes|] == Failed && Waiting(r.queue, |s.envelopes|) <==>
                && Foreseen(ch, w, messages, s.claimed, enforce, s.tick, 0, DeadLettered)
                && Foreseen(ch, w, messages, s.claimed, enforce, s.tick, 0, Rescheduled))
  {
    FailedYetQueuedIff(ch, w, Admit(s, messages), Entry(0, |s.envelopes|, 0), enforce);
  }

  /** Two messages without identifiers: the first fails for good, the second recoverably. */
  lemma FailedYetQueuedRun(ch: Channel) returns (w: World, ops: seq<Op>)
    ensures var r := Run(ch, w, ops);
            |r.status| == 1 && r.status[0] == Failed && Waiting(r.queue, 0)
  {
    var m := Message(None, None);
    w := World(t => Raised(Failure(t == 0, t > 0, false)), t => 0);
    ops := [Deliver([m, m], false)];
    assert ops[..0] == [];
    ForeseenWithoutDedupe(ch, w, [m, m], {}, 0, 0, DeadLettered);
    ForeseenWithoutDedupe(ch, w, [m, m], {}, 0, 0, Rescheduled);
    assert Judge(ch, w.outcome(0), 0) == DeadLettered && Judge(ch, w.outcome(1), 0) == Rescheduled;
    DeliveredFailedYetQueuedIff(ch, w, EmptyState, [m, m], false);
  }

  // ---------------------------------------------------------------- the two channels

  /** The channels differ exactly on exceptions that are both a ValueError or TypeError and a transport
      failure: WhatsApp dead-letters them, Telegram retries. */
  lemma ChannelsDifferIff(f: Failure)
    ensures Recoverable(WhatsApp, f) != Recoverable(Telegram, f) <==> f.valueOrType && f.transport
    ensures f.valueOrType && f.transport ==> Recoverable(Telegram, f)
  {
  }

  /** How the outcome of handling a message decides its verdict: transport failures are rescheduled three
      times, unless WhatsApp's first handler takes them for a validation error; all else is final. */
  lemma VerdictFollowsOutcome(ch: Channel, outcome: Outcome, attempt: nat)
    ensures Judge(ch, outcome, attempt) == Completed <==> outcome == Replied
    ensures Judge(ch, outcome, attempt) == Rescheduled <==>
            && outcome.Raised? && outcome.failure.transport && attempt < 3
            && (ch == WhatsApp ==> !outcome.failure.valueOrType)
    ensures Judge(ch, outcome, attempt) != DuplicateSkipped
  {
  }

  /** WhatsApp's catch-all handler never finds an exception recoverable: its retry branch is dead. */
  lemma CatchAllNeverRetries(f: Failure)
    requires WhatsAppHandler(f) == Unexpected
    ensures !IsRecoverableException(f)
  {
  }

  /** One message whose handling raises such an exception: failed on one channel, queued on the other. */
  lemma ChannelsPartWays(m: Message) returns (w: World, ops: seq<Op>)
    ensures Run(WhatsApp, w, ops).status == [Failed] && Run(WhatsApp, w, ops).queue == []
    ensures Run(Telegram, w, ops).status == [Queued] && Waiting(Run(Telegram, w, ops).queue, 0)
  {
    w := World(t => Raised(Failure(true, true, false)), t => 0);
    ops := [Deliver([m], false)];
    assert ops[..0] == [];
    OneMessage(WhatsApp, w, m, DeadLettered);
    OneMessage(Telegram, w, m, Rescheduled);
  }

  lemma OneMessage(ch: Channel, w: World, m: Message, v: Verdict)
    requires Judge(ch, w.outcome(0), 0) == v
    ensures var r := Apply(ch, w, EmptyState, Deliver([m], false));
            && r.status == [FinalStatus([Event(0, 0, 0, v)])]
            && (v == Rescheduled ==> r.status == [Queued] && Waiting(r.queue, 0))
            && (v == DeadLettered ==> r.status == [Failed] && r.queue == [])
  {
    var entry := Entry(0, 0, 0);
    var s0 := Begin(Admit(EmptyState, [m]), 0, entry);
    var r := HandleFirst(ch, w, s0, 0, 0, false, 1);
    assert HandleFirst(ch, w, s0, 0, 0, false, 0) == s0;
    assert r.events[0..] == [Event(0, 0, 0, v)];
    assert [Event(0, 0, 0, v)][0].verdict == v;
    if v == Rescheduled {
      InsertMembers([], Entry(w.clock(0) + Backoff(1) * MICROSECONDS, 0, 1));
      assert Entry(w.clock(0) + Backoff(1) * MICROSECONDS, 0, 1) in r.queue;
    }
  }
}
