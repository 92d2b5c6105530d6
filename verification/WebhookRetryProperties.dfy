/** What holds over every run of the retry runtime. */
module WebhookRetryProperties {
  import opened Options
  import opened WebhookRetry

  // ---------------------------------------------------------------- the queue stays ordered

  predicate Sorted(q: seq<Entry>) {
    forall i, j :: 0 <= i < j < |q| ==> !Before(q[j], q[i])
  }

  function Occurrences(q: seq<Entry>, e: Entry): nat {
    if q == [] then 0 else Occurrences(q[1..], e) + (if q[0] == e then 1 else 0)
  }

  /** Every entry of a is still in b, as often as it was. */
  ghost predicate Keeps(a: seq<Entry>, b: seq<Entry>) {
    forall e :: Occurrences(a, e) <= Occurrences(b, e)
  }

  lemma InsertSorted(q: seq<Entry>, e: Entry)
    requires Sorted(q)
    ensures Sorted(Insert(q, e))
  {
    var p := InsertSplits(q, e);
    SplicedSorted(q, e, p);
  }

  lemma {:induction false} InsertCounts(q: seq<Entry>, e: Entry, x: Entry)
    ensures Occurrences(Insert(q, e), x) == Occurrences(q, x) + (if x == e then 1 else 0)
  {
    if q != [] && !Before(e, q[0]) {
      InsertCounts(q[1..], e, x);
      assert Insert(q, e)[1..] == Insert(q[1..], e);
    } else {
      assert Insert(q, e)[1..] == q;
    }
  }

  lemma InsertKeeps(q: seq<Entry>, e: Entry)
    ensures Keeps(q, Insert(q, e))
  {
    forall x ensures Occurrences(q, x) <= Occurrences(Insert(q, e), x) { InsertCounts(q, e, x); }
  }

  /** Scheduling a retry adds one entry, due between 2 and 60 seconds from now, to the queue, takes none
      away, and leaves the queue in the order in which it will be popped. */
  lemma RetryIsQueuedInOrder(q: seq<Entry>, now: int, id: nat, attempt: nat, x: Entry)
    requires Sorted(q)
    ensures var e := Entry(now + Backoff(attempt) * MICROSECONDS, id, attempt);
            && Sorted(Insert(q, e))
            && Occurrences(Insert(q, e), x) == Occurrences(q, x) + (if x == e then 1 else 0)
            && now + 2 * MICROSECONDS <= e.runAfter <= now + 60 * MICROSECONDS
  {
    var e := Entry(now + Backoff(attempt) * MICROSECONDS, id, attempt);
    InsertSorted(q, e);
    InsertCounts(q, e, x);
    BackoffIsBounded(attempt, attempt);
  }

  lemma SplicedSorted(q: seq<Entry>, e: Entry, p: nat)
    requires Sorted(q) && p <= |q|
    requires forall j :: 0 <= j < p ==> !Before(e, q[j])
    requires p < |q| ==> Before(e, q[p])
    ensures Sorted(q[..p] + [e] + q[p..])
  {
    var r := q[..p] + [e] + q[p..];
    forall i, j | 0 <= i < j < |r| ensures !Before(r[j], r[i]) {
      if j == p {
        assert r[i] == q[i];
      } else if i == p {
        assert r[j] == q[j - 1];
        if j - 1 > p { assert !Before(q[j - 1], q[p]); }
      } else {
        assert r[i] == q[if i < p then i else i - 1] && r[j] == q[if j < p then j else j - 1];
      }
    }
  }

  lemma KeepsChain(a: seq<Entry>, b: seq<Entry>, c: seq<Entry>)
    requires Keeps(a, b) && Keeps(b, c)
    ensures Keeps(a, c)
  {
  }

  lemma HandleSorted(ch: Channel, w: World, s: State, id: nat, attempt: nat, enforce: bool, i: nat)
    requires id < |s.envelopes| && i < |s.envelopes[id]| && Sorted(s.queue)
    ensures Sorted(Handle(ch, w, s, id, attempt, enforce, i).queue)
  {
    InsertSorted(s.queue, Entry(w.clock(s.tick) + Backoff(attempt + 1) * MICROSECONDS, id, attempt + 1));
  }

  lemma {:induction false} HandleFirstSorted(ch: Channel, w: World, s: State, id: nat, attempt: nat, enforce: bool,
                                             k: nat)
    requires id < |s.envelopes| && k <= |s.envelopes[id]| && Sorted(s.queue)
    ensures Sorted(HandleFirst(ch, w, s, id, attempt, enforce, k).queue)
  {
    if k > 0 {
      HandleFirstSorted(ch, w, s, id, attempt, enforce, k - 1);
      HandleSorted(ch, w, HandleFirst(ch, w, s, id, attempt, enforce, k - 1), id, attempt, enforce, k - 1);
    }
  }

  lemma HandleKeeps(ch: Channel, w: World, s: State, id: nat, attempt: nat, enforce: bool, i: nat)
    requires id < |s.envelopes| && i < |s.envelopes[id]|
    ensures Keeps(s.queue, Handle(ch, w, s, id, attempt, enforce, i).queue)
  {
    InsertKeeps(s.queue, Entry(w.clock(s.tick) + Backoff(attempt + 1) * MICROSECONDS, id, attempt + 1));
  }

  lemma {:induction false} HandleFirstKeeps(ch: Channel, w: World, s: State, id: nat, attempt: nat, enforce: bool,
                                            k: nat)
    requires id < |s.envelopes| && k <= |s.envelopes[id]|
    ensures Keeps(s.queue, HandleFirst(ch, w, s, id, attempt, enforce, k).queue)
  {
    if k > 0 {
      HandleFirstKeeps(ch, w, s, id, attempt, enforce, k - 1);
      var p := HandleFirst(ch, w, s, id, attempt, enforce, k - 1);
      HandleKeeps(ch, w, p, id, attempt, enforce, k - 1);
      KeepsChain(s.queue, p.queue, Handle(ch, w, p, id, attempt, enforce, k - 1).queue);
    }
  }

  lemma PassSorted(ch: Channel, w: World, s: State, entry: Entry, enforce: bool)
    requires entry.envelopeId < |s.envelopes| == |s.status| && Sorted(s.queue)
    ensures var r := Pass(ch, w, s, entry, enforce);
            Sorted(r.queue) && Keeps(s.queue, r.queue)
  {
    var id := entry.envelopeId;
    HandleFirstSorted(ch, w, Begin(s, id, entry), id, entry.attempt, enforce, |s.envelopes[id]|);
    HandleFirstKeeps(ch, w, Begin(s, id, entry), id, entry.attempt, enforce, |s.envelopes[id]|);
  }

  lemma {:induction false} DrainSorted(ch: Channel, w: World, s: State, now: int)
    requires Sane(s) && Sorted(s.queue)
    ensures Sorted(DrainAt(ch, w, s, now).queue)
    decreases Weight(s.envelopes, s.queue, None)
  {
    if Due(s, now) {
      PopPassSane(ch, w, s);
      PopPassLowersWeight(ch, w, s, None);
      PassSorted(ch, w, s.(queue := s.queue[1..]), s.queue[0], false);
      DrainSorted(ch, w, PopPass(ch, w, s), now);
    }
  }

  lemma {:induction false} RunSorted(ch: Channel, w: World, ops: seq<Op>)
    ensures Sorted(Run(ch, w, ops).queue)
  {
    if ops != [] {
      var s := Run(ch, w, ops[..|ops| - 1]);
      RunSorted(ch, w, ops[..|ops| - 1]);
      match ops[|ops| - 1]
      case Deliver(messages, enforce) =>
        PassSorted(ch, w, Admit(s, messages), Entry(0, |s.envelopes|, 0), enforce);
      case Drain => DrainSorted(ch, w, s.(tick := s.tick + 1), w.clock(s.tick));
    }
  }

  /** In every run the queue is ordered by due time, then by envelope, then by attempt. */
  lemma QueueOrder(ch: Channel, w: World, ops: seq<Op>, i: nat, j: nat)
    requires i < j < |Run(ch, w, ops).queue|
    ensures var a, b := Run(ch, w, ops).queue[i], Run(ch, w, ops).queue[j];
            && a.runAfter <= b.runAfter
            && (a.runAfter == b.runAfter ==> a.envelopeId <= b.envelopeId)
            && (a.runAfter == b.runAfter && a.envelopeId == b.envelopeId ==> a.attempt <= b.attempt)
  {
    RunSorted(ch, w, ops);
  }

  // ---------------------------------------------------------------- one event per message and pass

  /** Record `base + j` is the one that a pass for `entry` writes about message j. */
  predicate Records(events: seq<Event>, base: nat, j: nat, entry: Entry, enforce: bool) {
    && base + j < |events|
    && events[base + j].envelopeId == entry.envelopeId
    && events[base + j].index == j
    && events[base + j].attempt == entry.attempt
    && (!enforce ==> events[base + j].verdict != DuplicateSkipped)
  }

  lemma {:induction false} HandleFirstEvents(ch: Channel, w: World, s: State, entry: Entry, enforce: bool, k: nat,
                                             j: nat)
    requires entry.envelopeId < |s.envelopes| && j < k <= |s.envelopes[entry.envelopeId]|
    ensures Records(HandleFirst(ch, w, s, entry.envelopeId, entry.attempt, enforce, k).events,
                    |s.events|, j, entry, enforce)
  {
    if j < k - 1 {
      HandleFirstEvents(ch, w, s, entry, enforce, k - 1, j);
    }
  }

  lemma {:induction false} HandleFirstExtends(ch: Channel, w: World, s: State, id: nat, attempt: nat, enforce: bool,
                                              k: nat)
    requires id < |s.envelopes| && k <= |s.envelopes[id]|
    ensures s.events <= HandleFirst(ch, w, s, id, attempt, enforce, k).events
  {
    if k > 0 { HandleFirstExtends(ch, w, s, id, attempt, enforce, k - 1); }
  }

  /** A pass records every message of the envelope once, in order; a pass that does not consult the
      dedupe store (every retry) handles every one of them, those first skipped as duplicates included. */
  lemma PassEvents(ch: Channel, w: World, s: State, entry: Entry, enforce: bool)
    requires entry.envelopeId < |s.envelopes| == |s.status|
    ensures var r := Pass(ch, w, s, entry, enforce);
            && |r.events| == |s.events| + |s.envelopes[entry.envelopeId]|
            && s.events <= r.events
            && (forall j :: 0 <= j < |s.envelopes[entry.envelopeId]| ==>
                Records(r.events, |s.events|, j, entry, enforce))
  {
    var id := entry.envelopeId;
    HandleFirstExtends(ch, w, Begin(s, id, entry), id, entry.attempt, enforce, |s.envelopes[id]|);
    forall j | 0 <= j < |s.envelopes[id]|
      ensures Records(Pass(ch, w, s, entry, enforce).events, |s.events|, j, entry, enforce)
    {
      HandleFirstEvents(ch, w, Begin(s, id, entry), entry, enforce, |s.envelopes[id]|, j);
    }
  }

  // ---------------------------------------------------------------- no message is lost

  predicate Settled(events: seq<Event>, id: nat, i: nat) {
    exists e :: e in events && e.envelopeId == id && e.index == i
        && (e.verdict == Completed || e.verdict == DeadLettered)
  }

  predicate Waiting(q: seq<Entry>, id: nat) {
    exists e :: e in q && e.envelopeId == id
  }

  /** Every message that passed its dedupe check is settled, or waits in a queued envelope, or is
      still ahead in the pass now being made over envelope `id`. */
  predicate Covered(s: State, id: nat, k: nat) {
    forall e :: e in s.events && e.verdict != DuplicateSkipped ==>
      || Settled(s.events, e.envelopeId, e.index)
      || Waiting(s.queue, e.envelopeId)
      || (e.envelopeId == id && e.index >= k)
  }

  predicate EventsInRange(s: State) {
    forall e :: e in s.events ==> e.envelopeId < |s.envelopes| && e.index < |s.envelopes[e.envelopeId]|
  }

  predicate Seen(events: seq<Event>, id: nat, i: nat) {
    exists e :: e in events && e.envelopeId == id && e.index == i
  }

  predicate AllSeen(s: State) {
    forall id: nat, i: nat :: id < |s.envelopes| && i < |s.envelopes[id]| ==> Seen(s.events, id, i)
  }

  predicate AllSeenBut(s: State, own: nat) {
    forall id: nat, i: nat :: id != own && id < |s.envelopes| && i < |s.envelopes[id]| ==> Seen(s.events, id, i)
  }

  /** The invariant: nothing is lost, and no delivered message goes unrecorded. */
  predicate NothingLost(s: State) {
    && EventsInRange(s)
    && AllSeen(s)
    && (forall e :: e in s.events && e.verdict != DuplicateSkipped ==>
          Settled(s.events, e.envelopeId, e.index) || Waiting(s.queue, e.envelopeId))
  }

  /** What the message loop keeps: a first pass has recorded only messages before the k-th. */
  predicate InProgress(s: State, id: nat, k: nat, enforce: bool) {
    && Covered(s, id, k) && EventsInRange(s)
    && (enforce ==> forall e :: e in s.events && e.envelopeId == id ==> e.index < k)
  }

  lemma HandleCovered(ch: Channel, w: World, s: State, id: nat, attempt: nat, enforce: bool, k: nat)
    requires id < |s.envelopes| && k < |s.envelopes[id]|
    requires InProgress(s, id, k, enforce)
    ensures InProgress(Handle(ch, w, s, id, attempt, enforce, k), id, k + 1, enforce)
  {
    var r := Handle(ch, w, s, id, attempt, enforce, k);
    var retry := Entry(w.clock(s.tick) + Backoff(attempt + 1) * MICROSECONDS, id, attempt + 1);
    var at := InsertSplits(s.queue, retry);
    var last := r.events[|s.events|];
    assert r.events == s.events + [last];
    forall e | e in s.events ensures e in r.events {}
    forall e | e in s.queue ensures e in r.queue {}
    forall e | e in r.events && e.verdict != DuplicateSkipped
      ensures Settled(r.events, e.envelopeId, e.index) || Waiting(r.queue, e.envelopeId)
           || (e.envelopeId == id && e.index >= k + 1)
    {
      if e.envelopeId == id && e.index == k {
        assert last in r.events;
        if last.verdict == Rescheduled { assert retry in r.queue; }
      }
    }
  }

  lemma {:induction false} HandleFirstCovered(ch: Channel, w: World, s: State, id: nat, attempt: nat, enforce: bool,
                                              k: nat)
    requires id < |s.envelopes| && k <= |s.envelopes[id]|
    requires InProgress(s, id, 0, enforce)
    ensures InProgress(HandleFirst(ch, w, s, id, attempt, enforce, k), id, k, enforce)
  {
    if k > 0 {
      HandleFirstCovered(ch, w, s, id, attempt, enforce, k - 1);
      HandleCovered(ch, w, HandleFirst(ch, w, s, id, attempt, enforce, k - 1), id, attempt, enforce, k - 1);
    }
  }

  lemma PassKeepsNothingLost(ch: Channel, w: World, s: State, entry: Entry, enforce: bool)
    requires entry.envelopeId < |s.envelopes| == |s.status|
    requires EventsInRange(s) && Covered(s, entry.envelopeId, 0) && AllSeenBut(s, entry.envelopeId)
    requires enforce ==> forall e :: e in s.events ==> e.envelopeId != entry.envelopeId
    ensures NothingLost(Pass(ch, w, s, entry, enforce))
  {
    PassSeen(ch, w, s, entry, enforce);
    HandleFirstCovered(ch, w, Begin(s, entry.envelopeId, entry), entry.envelopeId, entry.attempt, enforce,
                       |s.envelopes[entry.envelopeId]|);
  }

  lemma PassSeen(ch: Channel, w: World, s: State, entry: Entry, enforce: bool)
    requires entry.envelopeId < |s.envelopes| == |s.status|
    requires AllSeenBut(s, entry.envelopeId)
    ensures AllSeen(Pass(ch, w, s, entry, enforce))
  {
    var r := Pass(ch, w, s, entry, enforce);
    PassEvents(ch, w, s, entry, enforce);
    forall id: nat, i: nat | id < |r.envelopes| && i < |r.envelopes[id]|
      ensures Seen(r.events, id, i)
    {
      if id == entry.envelopeId {
        assert Records(r.events, |s.events|, i, entry, enforce);
        assert r.events[|s.events| + i] in r.events;
      } else {
        assert Seen(s.events, id, i);
        var e :| e in s.events && e.envelopeId == id && e.index == i;
        assert e in r.events;
      }
    }
  }

  lemma {:induction false} DrainKeepsNothingLost(ch: Channel, w: World, s: State, now: int)
    requires Sane(s) && NothingLost(s)
    ensures NothingLost(DrainAt(ch, w, s, now))
    decreases Weight(s.envelopes, s.queue, None)
  {
    if Due(s, now) {
      PopPassSane(ch, w, s);
      PopPassLowersWeight(ch, w, s, None);
      var popped := s.(queue := s.queue[1..]);
      assert s.queue == [s.queue[0]] + popped.queue;
      PassKeepsNothingLost(ch, w, popped, s.queue[0], false);
      DrainKeepsNothingLost(ch, w, PopPass(ch, w, s), now);
    }
  }

  lemma DeliverKeepsNothingLost(ch: Channel, w: World, s: State, messages: seq<Message>, enforce: bool)
    requires Sane(s) && NothingLost(s)
    ensures NothingLost(Apply(ch, w, s, Deliver(messages, enforce)))
  {
    var s0 := Admit(s, messages);
    assert forall id :: 0 <= id < |s.envelopes| ==> s0.envelopes[id] == s.envelopes[id];
    PassKeepsNothingLost(ch, w, s0, Entry(0, |s.envelopes|, 0), enforce);
  }

  /** No message is lost: whatever the world does, every message that passed its dedupe check has
      completed, or has been dead-lettered, or belongs to an envelope queued for attempt 1, 2 or 3. */
  lemma {:induction false} NoMessageIsLost(ch: Channel, w: World, ops: seq<Op>)
    ensures var s := Run(ch, w, ops);
            && NothingLost(s)
            && (forall e :: e in s.queue ==> 1 <= e.attempt <= 3)
            && (s.queue == [] ==>
                  forall e :: e in s.events && e.verdict != DuplicateSkipped ==>
                      Settled(s.events, e.envelopeId, e.index))
  {
    if ops != [] {
      var s := Run(ch, w, ops[..|ops| - 1]);
      NoMessageIsLost(ch, w, ops[..|ops| - 1]);
      match ops[|ops| - 1]
      case Deliver(messages, enforce) => DeliverKeepsNothingLost(ch, w, s, messages, enforce);
      case Drain => DrainKeepsNothingLost(ch, w, s.(tick := s.tick + 1), w.clock(s.tick));
    }
  }

  // ---------------------------------------------------------------- the status on file

  /** An envelope on file as queued is really in the queue. */
  predicate QueuedWait(s: State) {
    |s.status| == |s.envelopes| && forall id: nat :: id < |s.status| && s.status[id] == Queued ==> Waiting(s.queue, id)
  }

  predicate QueuedWaitBut(s: State, own: nat) {
    && |s.status| == |s.envelopes|
    && (forall id: nat :: id != own && id < |s.status| && s.status[id] == Queued ==> Waiting(s.queue, id))
  }

  lemma {:induction false} RescheduledWaits(ch: Channel, w: World, s: State, id: nat, attempt: nat, enforce: bool,
                                            k: nat, j: nat)
    requires id < |s.envelopes| && j < k <= |s.envelopes[id]|
    ensures var r := HandleFirst(ch, w, s, id, attempt, enforce, k);
            r.events[|s.events| + j].verdict == Rescheduled ==> Waiting(r.queue, id)
  {
    var p := HandleFirst(ch, w, s, id, attempt, enforce, k - 1);
    var retry := Entry(w.clock(p.tick) + Backoff(attempt + 1) * MICROSECONDS, id, attempt + 1);
    if j < k - 1 {
      RescheduledWaits(ch, w, s, id, attempt, enforce, k - 1, j);
      HandleQueue(ch, w, p, id, attempt, enforce, k - 1);
    } else {
      InsertMembers(p.queue, retry);
    }
  }

  lemma PassKeepsQueuedWait(ch: Channel, w: World, s: State, entry: Entry, enforce: bool)
    requires entry.envelopeId < |s.envelopes| && QueuedWaitBut(s, entry.envelopeId)
    ensures QueuedWait(Pass(ch, w, s, entry, enforce))
  {
    var id := entry.envelopeId;
    var s0 := Begin(s, id, entry);
    var r := HandleFirst(ch, w, s0, id, entry.attempt, enforce, |s.envelopes[id]|);
    HandleFirstQueue(ch, w, s0, id, entry.attempt, enforce, |s.envelopes[id]|);
    var written := r.events[|s.events|..];
    if Saw(written, Rescheduled) {
      var j :| 0 <= j < |written| && written[j].verdict == Rescheduled;
      RescheduledWaits(ch, w, s0, id, entry.attempt, enforce, |s.envelopes[id]|, j);
    }
  }

  lemma {:induction false} DrainKeepsQueuedWait(ch: Channel, w: World, s: State, now: int)
    requires Sane(s) && QueuedWait(s)
    ensures QueuedWait(DrainAt(ch, w, s, now))
    decreases Weight(s.envelopes, s.queue, None)
  {
    if Due(s, now) {
      PopPassSane(ch, w, s);
      PopPassLowersWeight(ch, w, s, None);
      var popped := s.(queue := s.queue[1..]);
      assert s.queue == [s.queue[0]] + popped.queue;
      PassKeepsQueuedWait(ch, w, popped, s.queue[0], false);
      DrainKeepsQueuedWait(ch, w, PopPass(ch, w, s), now);
    }
  }

  /** In every run, an envelope whose status on file is "queued" has an entry in the retry queue. */
  lemma {:induction false} QueuedEnvelopesWait(ch: Channel, w: World, ops: seq<Op>)
    ensures QueuedWait(Run(ch, w, ops))
  {
    if ops != [] {
      var s := Run(ch, w, ops[..|ops| - 1]);
      QueuedEnvelopesWait(ch, w, ops[..|ops| - 1]);
      match ops[|ops| - 1]
      case Deliver(messages, enforce) =>
        PassKeepsQueuedWait(ch, w, Admit(s, messages), Entry(0, |s.envelopes|, 0), enforce);
      case Drain => DrainKeepsQueuedWait(ch, w, s.(tick := s.tick + 1), w.clock(s.tick));
    }
  }

  // ---------------------------------------------------------------- how far retries multiply

  function PassesOf(passes: seq<Entry>, id: nat): nat {
    if passes == [] then 0
    else PassesOf(passes[..|passes| - 1], id) + (if passes[|passes| - 1].envelopeId == id then 1 else 0)
  }

  /** Passes already made for the envelope plus passes its queued entries can still cause. */
  function Spent(s: State, id: nat): nat {
    PassesOf(s.passes, id) + Weight(s.envelopes, s.queue, Some(id))
  }

  lemma PassSpent(ch: Channel, w: World, s: State, entry: Entry, enforce: bool, id: nat)
    requires entry.envelopeId < |s.envelopes| == |s.status|
    ensures var own := if id == entry.envelopeId then EntryWeight(|s.envelopes[id]|, entry.attempt) else 0;
            && Spent(Pass(ch, w, s, entry, enforce), id) <= Spent(s, id) + own
            && (AlwaysRetries(ch, w) && !enforce ==> Spent(Pass(ch, w, s, entry, enforce), id) == Spent(s, id) + own)
  {
    PassWeight(ch, w, s, entry, enforce, Some(id));
    var r := Pass(ch, w, s, entry, enforce);
    assert r.passes == s.passes + [entry];
    assert r.passes[..|s.passes|] == s.passes;
  }

  lemma {:induction false} DrainSpent(ch: Channel, w: World, s: State, now: int, id: nat)
    requires Sane(s) && id < |s.envelopes|
    ensures Spent(DrainAt(ch, w, s, now), id) <= Spent(s, id)
    ensures AlwaysRetries(ch, w) ==> Spent(DrainAt(ch, w, s, now), id) == Spent(s, id)
    decreases Weight(s.envelopes, s.queue, None)
  {
    if Due(s, now) {
      PopPassSane(ch, w, s);
      PopPassLowersWeight(ch, w, s, None);
      PassSpent(ch, w, s.(queue := s.queue[1..]), s.queue[0], false, id);
      DrainSpent(ch, w, PopPass(ch, w, s), now, id);
    }
  }

  lemma {:induction false} WeightAfterAdmit(envs: seq<seq<Message>>, messages: seq<Message>, q: seq<Entry>, id: nat)
    requires forall e :: e in q ==> e.envelopeId < |envs|
    ensures Weight(envs + [messages], q, Some(id)) == if id < |envs| then Weight(envs, q, Some(id)) else 0
  {
    if q != [] { WeightAfterAdmit(envs, messages, q[1..], id); }
  }

  lemma {:induction false} PassesOfUnknown(passes: seq<Entry>, id: nat)
    requires forall e :: e in passes ==> e.envelopeId != id
    ensures PassesOf(passes, id) == 0
  {
    if passes != [] { PassesOfUnknown(passes[..|passes| - 1], id); }
  }

  predicate Synchronous(ops: seq<Op>) {
    forall op :: op in ops && op.Deliver? ==> !op.enforce
  }

  predicate PassesInRange(s: State) {
    forall e :: e in s.passes ==> e.envelopeId < |s.envelopes|
  }

  lemma {:induction false} DrainPassesInRange(ch: Channel, w: World, s: State, now: int)
    requires Sane(s) && PassesInRange(s)
    ensures PassesInRange(DrainAt(ch, w, s, now)) && DrainAt(ch, w, s, now).envelopes == s.envelopes
    decreases Weight(s.envelopes, s.queue, None)
  {
    if Due(s, now) {
      PopPassSane(ch, w, s);
      PopPassLowersWeight(ch, w, s, None);
      assert PopPass(ch, w, s).passes == s.passes + [s.queue[0]];
      DrainPassesInRange(ch, w, PopPass(ch, w, s), now);
    }
  }

  lemma {:induction false} RunPassesInRange(ch: Channel, w: World, ops: seq<Op>)
    ensures PassesInRange(Run(ch, w, ops))
  {
    if ops != [] {
      var s := Run(ch, w, ops[..|ops| - 1]);
      RunPassesInRange(ch, w, ops[..|ops| - 1]);
      match ops[|ops| - 1]
      case Deliver(messages, enforce) =>
        var entry := Entry(0, |s.envelopes|, 0);
        assert Pass(ch, w, Admit(s, messages), entry, enforce).passes == s.passes + [entry];
      case Drain => DrainPassesInRange(ch, w, s.(tick := s.tick + 1), w.clock(s.tick));
    }
  }

  /** What the passes for an envelope amount to, before the step that delivers it and after. */
  function Budget(s: State, r: State, id: nat): nat
    requires id < |r.envelopes|
  {
    if id < |s.envelopes| then Spent(s, id) else EntryWeight(|r.envelopes[id]|, 0)
  }

  lemma DeliverSpent(ch: Channel, w: World, s: State, messages: seq<Message>, enforce: bool, id: nat)
    requires Sane(s) && PassesInRange(s)
    ensures var r := Apply(ch, w, s, Deliver(messages, enforce));
            && r.envelopes == s.envelopes + [messages]
            && (id < |r.envelopes| ==> Spent(r, id) <= Budget(s, r, id))
            && (id < |r.envelopes| && AlwaysRetries(ch, w) && !enforce ==> Spent(r, id) == Budget(s, r, id))
  {
    var s0 := Admit(s, messages);
    WeightAfterAdmit(s.envelopes, messages, s.queue, id);
    PassSpent(ch, w, s0, Entry(0, |s.envelopes|, 0), enforce, id);
    if id == |s.envelopes| { PassesOfUnknown(s.passes, id); }
  }

  lemma DrainOpSpent(ch: Channel, w: World, s: State, id: nat)
    requires Sane(s) && PassesInRange(s)
    ensures var r := Apply(ch, w, s, Drain);
            && r.envelopes == s.envelopes
            && (id < |s.envelopes| ==> Spent(r, id) <= Spent(s, id))
            && (id < |s.envelopes| && AlwaysRetries(ch, w) ==> Spent(r, id) == Spent(s, id))
  {
    var s0 := s.(tick := s.tick + 1);
    DrainPassesInRange(ch, w, s0, w.clock(s.tick));
    if id < |s.envelopes| { DrainSpent(ch, w, s0, w.clock(s.tick), id); }
  }

  lemma {:induction false} RunSpent(ch: Channel, w: World, ops: seq<Op>, id: nat, exact: bool)
    requires id < |Run(ch, w, ops).envelopes|
    requires exact ==> AlwaysRetries(ch, w) && Synchronous(ops)
    ensures var s := Run(ch, w, ops);
            && Spent(s, id) <= EntryWeight(|s.envelopes[id]|, 0)
            && (exact ==> Spent(s, id) == EntryWeight(|s.envelopes[id]|, 0))
  {
    var s := Run(ch, w, ops[..|ops| - 1]);
    var op := ops[|ops| - 1];
    assert op in ops;
    RunPassesInRange(ch, w, ops[..|ops| - 1]);
    match op {
      case Deliver(messages, enforce) => DeliverSpent(ch, w, s, messages, enforce, id);
      case Drain => DrainOpSpent(ch, w, s, id);
    }
    if id < |s.envelopes| { RunSpent(ch, w, ops[..|ops| - 1], id, exact); }
  }

  /** One delivery of n messages causes at most 1 + n + n^2 + n^3 passes, however often the queue is
      drained; the bound is met when every message of a delivery taken without dedupe keeps failing
      in a way that is retried and the queue has run dry. */
  lemma {:induction false} PassesAreBounded(ch: Channel, w: World, ops: seq<Op>, id: nat)
    requires id < |Run(ch, w, ops).envelopes|
    ensures var s := Run(ch, w, ops);
            var n := |s.envelopes[id]|;
            && PassesOf(s.passes, id) <= 1 + n + n * n + n * n * n
            && (AlwaysRetries(ch, w) && Synchronous(ops) && s.queue == [] ==>
                  PassesOf(s.passes, id) == 1 + n + n * n + n * n * n)
  {
    RunSpent(ch, w, ops, id, AlwaysRetries(ch, w) && Synchronous(ops));
    EntryWeightClosed(|Run(ch, w, ops).envelopes[id]|);
  }

  lemma EntryWeightClosed(n: nat)
    ensures EntryWeight(n, 0) == 1 + n + n * n + n * n * n
  {
    assert EntryWeight(n, 2) == 1 + n;
    assert EntryWeight(n, 1) == 1 + n * (1 + n) == 1 + n + n * n;
    assert EntryWeight(n, 0) == 1 + n * (1 + n + n * n);
    assert n * (1 + n + n * n) == n + n * n + n * (n * n);
  }

  // ---------------------------------------------------------------- the drain loop

  lemma {:induction false} Pow2Grows(j: nat, k: nat)
    requires j <= k
    ensures 1 <= Pow2(j) <= Pow2(k)
    decreases k
  {
    if k > 0 {
      Pow2Grows(if j < k then j else k - 1, k - 1);
    }
  }

  /** The wait is between 2 and 60 seconds and never shrinks from one attempt to the next. */
  lemma BackoffIsBounded(attempt: nat, later: nat)
    requires attempt <= later
    ensures 2 <= Backoff(attempt) <= Backoff(later) <= 60
  {
    Pow2Grows(if attempt == 0 then 0 else attempt - 1, if later == 0 then 0 else later - 1);
  }

  /** The wait doubles from 2 seconds on until it is capped at 60. */
  lemma BackoffDoubles(attempt: nat)
    requires attempt >= 1
    ensures Backoff(1) == 2 && Backoff(2) == 4 && Backoff(3) == 8
    ensures Backoff(4) == 16 && Backoff(5) == 32 && Backoff(6) == 60
    ensures Backoff(attempt + 1) == if 2 * Backoff(attempt) < 60 then 2 * Backoff(attempt) else 60
  {
    assert Pow2(1) == 2 && Pow2(2) == 4 && Pow2(3) == 8 && Pow2(4) == 16 && Pow2(5) == 32;
  }

  /** A failing message's envelope falls due 2, 4 or 8 seconds later, at its next attempt. */
  lemma RetryFallsDue(ch: Channel, w: World, s: State, id: nat, attempt: nat, enforce: bool, i: nat)
    requires id < |s.envelopes| && i < |s.envelopes[id]|
    ensures var r := Handle(ch, w, s, id, attempt, enforce, i);
            if r.events[|s.events|].verdict == Rescheduled
            then attempt < 3 && r.queue ==
                 Insert(s.queue, Entry(w.clock(s.tick) + [2, 4, 8][attempt] * 1_000_000, id, attempt + 1))
            else r.queue == s.queue
  {
    BackoffDoubles(1);
  }

  ghost predicate Monotone(w: World) {
    forall i: nat, j: nat :: i <= j ==> w.clock(i) <= w.clock(j)
  }

  /** The entries at the front of the queue that have come due. */
  function DuePrefix(q: seq<Entry>, now: int): seq<Entry> {
    if q == [] || q[0].runAfter > now then [] else [q[0]] + DuePrefix(q[1..], now)
  }

  lemma {:induction false} DuePrefixIsPrefix(q: seq<Entry>, now: int)
    ensures DuePrefix(q, now) <= q
    ensures Sorted(q) ==> forall e :: e in q[|DuePrefix(q, now)|..] ==> e.runAfter > now
    ensures forall e :: e in DuePrefix(q, now) ==> e.runAfter <= now
  {
    if q != [] && q[0].runAfter <= now {
      DuePrefixIsPrefix(q[1..], now);
      assert q[|DuePrefix(q, now)|..] == q[1..][|DuePrefix(q[1..], now)|..];
    } else {
      assert forall j :: 0 < j < |q| ==> (Sorted(q) ==> !Before(q[j], q[0]));
    }
  }

  lemma {:induction false} InsertKeepsDue(q: seq<Entry>, e: Entry, now: int)
    requires e.runAfter > now
    ensures DuePrefix(Insert(q, e), now) == DuePrefix(q, now)
  {
    if q != [] && !Before(e, q[0]) {
      InsertKeepsDue(q[1..], e, now);
      assert Insert(q, e)[1..] == Insert(q[1..], e);
    }
  }

  lemma HandleKeepsDue(ch: Channel, w: World, s: State, id: nat, attempt: nat, enforce: bool, i: nat, now: int)
    requires id < |s.envelopes| && i < |s.envelopes[id]| && now <= w.clock(s.tick)
    ensures DuePrefix(Handle(ch, w, s, id, attempt, enforce, i).queue, now) == DuePrefix(s.queue, now)
  {
    BackoffIsBounded(attempt + 1, attempt + 1);
    InsertKeepsDue(s.queue, Entry(w.clock(s.tick) + Backoff(attempt + 1) * MICROSECONDS, id, attempt + 1), now);
  }

  lemma {:induction false} HandleFirstKeepsDue(ch: Channel, w: World, s: State, id: nat, attempt: nat, enforce: bool,
                                               k: nat, now: int)
    requires id < |s.envelopes| && k <= |s.envelopes[id]|
    requires Monotone(w) && now <= w.clock(s.tick)
    ensures DuePrefix(HandleFirst(ch, w, s, id, attempt, enforce, k).queue, now) == DuePrefix(s.queue, now)
  {
    if k > 0 {
      HandleFirstKeepsDue(ch, w, s, id, attempt, enforce, k - 1, now);
      var p := HandleFirst(ch, w, s, id, attempt, enforce, k - 1);
      assert w.clock(s.tick) <= w.clock(p.tick);
      HandleKeepsDue(ch, w, p, id, attempt, enforce, k - 1, now);
    }
  }

  lemma PopPassKeepsDue(ch: Channel, w: World, s: State, now: int)
    requires Sane(s) && Sorted(s.queue) && Due(s, now) && Monotone(w) && now <= w.clock(s.tick)
    ensures var r := PopPass(ch, w, s);
            && DuePrefix(s.queue, now) == [s.queue[0]] + DuePrefix(r.queue, now)
            && r.passes == s.passes + [s.queue[0]]
            && s.tick <= r.tick
            && Sorted(r.queue) && Keeps(s.queue[1..], r.queue)
  {
    var popped := s.(queue := s.queue[1..]);
    var e := s.queue[0];
    HandleFirstKeepsDue(ch, w, Begin(popped, e.envelopeId, e), e.envelopeId, e.attempt, false,
                        |s.envelopes[e.envelopeId]|, now);
    PassSorted(ch, w, popped, e, false);
  }

  /** A drain makes exactly one pass for each entry that was due when it began, in the queue's order. */
  lemma {:induction false} DrainTakesExactlyTheDue(ch: Channel, w: World, s: State, now: int)
    requires Sane(s) && Sorted(s.queue) && Monotone(w) && now <= w.clock(s.tick)
    ensures DrainAt(ch, w, s, now).passes == s.passes + DuePrefix(s.queue, now)
    decreases Weight(s.envelopes, s.queue, None)
  {
    if Due(s, now) {
      PopPassSane(ch, w, s);
      PopPassLowersWeight(ch, w, s, None);
      PopPassKeepsDue(ch, w, s, now);
      var p := PopPass(ch, w, s);
      DrainTakesExactlyTheDue(ch, w, p, now);
      TakeOne(s.passes, s.queue[0], DuePrefix(p.queue, now));
    }
  }

  lemma TakeOne(passes: seq<Entry>, e: Entry, rest: seq<Entry>)
    ensures (passes + [e]) + rest == passes + ([e] + rest)
  {
  }

  lemma {:induction false} DrainLeavesNothingDue(ch: Channel, w: World, s: State, now: int)
    requires Sane(s) && Sorted(s.queue)
    ensures forall e :: e in DrainAt(ch, w, s, now).queue ==> e.runAfter > now
    decreases Weight(s.envelopes, s.queue, None)
  {
    if Due(s, now) {
      PopPassSane(ch, w, s);
      PopPassLowersWeight(ch, w, s, None);
      PassSorted(ch, w, s.(queue := s.queue[1..]), s.queue[0], false);
      DrainLeavesNothingDue(ch, w, PopPass(ch, w, s), now);
    } else {
      DuePrefixIsPrefix(s.queue, now);
      assert s.queue[0..] == s.queue;
    }
  }

  /** Entries not yet due stay in the queue. */
  lemma {:induction false} DrainKeepsTheRest(ch: Channel, w: World, s: State, now: int)
    requires Sane(s) && Sorted(s.queue) && Monotone(w) && now <= w.clock(s.tick)
    ensures var due := DuePrefix(s.queue, now);
            due <= s.queue && Keeps(s.queue[|due|..], DrainAt(ch, w, s, now).queue)
    decreases Weight(s.envelopes, s.queue, None)
  {
    DuePrefixIsPrefix(s.queue, now);
    if Due(s, now) {
      PopPassSane(ch, w, s);
      PopPassLowersWeight(ch, w, s, None);
      PopPassKeepsDue(ch, w, s, now);
      var p := PopPass(ch, w, s);
      DrainKeepsTheRest(ch, w, p, now);
      var front := DuePrefix(p.queue, now);
      assert front <= s.queue[1..] && front <= p.queue;
      RestGrows(s.queue[1..], p.queue, |front|);
      assert s.queue[1..][|front|..] == s.queue[|DuePrefix(s.queue, now)|..];
    } else {
      assert s.queue[0..] == s.queue;
    }
  }

  lemma {:induction false} RestGrows(a: seq<Entry>, b: seq<Entry>, n: nat)
    requires n <= |a| && n <= |b| && a[..n] == b[..n] && Keeps(a, b)
    ensures Keeps(a[n..], b[n..])
  {
    if n > 0 {
      assert a[0] == a[..n][0] && b[0] == b[..n][0];
      assert a[1..][..n - 1] == a[..n][1..] && b[1..][..n - 1] == b[..n][1..];
      assert Keeps(a[1..], b[1..]) by {
        forall e ensures Occurrences(a[1..], e) <= Occurrences(b[1..], e) {
          assert Occurrences(a, e) <= Occurrences(b, e);
        }
      }
      RestGrows(a[1..], b[1..], n - 1);
      assert a[1..][n - 1..] == a[n..] && b[1..][n - 1..] == b[n..];
    } else {
      assert a[0..] == a && b[0..] == b;
    }
  }

  /** In any run with a clock that never goes back, the Drain step takes exactly the entries due at
      its clock reading, in nondecreasing order of due time, keeps all others, and leaves none that is due. */
  lemma DrainIsExactInEveryRun(ch: Channel, w: World, ops: seq<Op>)
    requires Monotone(w)
    ensures DrainIsExact(w, Run(ch, w, ops), Apply(ch, w, Run(ch, w, ops), Drain))
  {
    RunSorted(ch, w, ops);
    DrainIsExactFrom(ch, w, Run(ch, w, ops));
  }

  lemma DrainIsExactFrom(ch: Channel, w: World, s: State)
    requires Sane(s) && Sorted(s.queue) && Monotone(w)
    ensures DrainIsExact(w, s, Apply(ch, w, s, Drain))
  {
    var s0 := s.(tick := s.tick + 1);
    assert w.clock(s.tick) <= w.clock(s0.tick);
    var r := DrainAt(ch, w, s0, w.clock(s.tick));
    assert r == Apply(ch, w, s, Drain);
    DrainTakesExactlyTheDue(ch, w, s0, w.clock(s.tick));
    DrainLeavesNothingDue(ch, w, s0, w.clock(s.tick));
    DrainKeepsTheRest(ch, w, s0, w.clock(s.tick));
    DuePrefixIsExact(s.queue, w.clock(s.tick));
  }

  ghost predicate DrainIsExact(w: World, s: State, r: State) {
    var now := w.clock(s.tick);
    var due := DuePrefix(s.queue, now);
    && due <= s.queue
    && r.passes == s.passes + due
    && (forall e :: e in s.queue ==> (e in due <==> e.runAfter <= now))
    && (forall i, j :: 0 <= i < j < |due| ==> due[i].runAfter <= due[j].runAfter)
    && Keeps(s.queue[|due|..], r.queue)
    && (forall e :: e in r.queue ==> e.runAfter > now)
  }

  lemma DuePrefixIsExact(q: seq<Entry>, now: int)
    requires Sorted(q)
    ensures var due := DuePrefix(q, now);
            && (forall e :: e in q ==> (e in due <==> e.runAfter <= now))
            && (forall i, j :: 0 <= i < j < |due| ==> due[i].runAfter <= due[j].runAfter)
  {
    var due := DuePrefix(q, now);
    DuePrefixIsPrefix(q, now);
    assert q == due + q[|due|..];
    forall i, j | 0 <= i < j < |due| ensures due[i].runAfter <= due[j].runAfter {
      assert !Before(q[j], q[i]);
    }
  }

  // ---------------------------------------------------------------- the queue runs dry

  predicate AttemptsAtLeast(q: seq<Entry>, m: nat) {
    forall e :: e in q ==> e.attempt >= m
  }

  lemma {:induction false} DrainRaisesAttempts(ch: Channel, w: World, s: State, now: int, m: nat)
    requires Sane(s) && Sorted(s.queue)
    requires forall e :: e in s.queue ==> e.attempt >= m + 1 || (e.attempt == m && e.runAfter <= now)
    ensures AttemptsAtLeast(DrainAt(ch, w, s, now).queue, m + 1)
    decreases Weight(s.envelopes, s.queue, None)
  {
    if Due(s, now) {
      PopPassSane(ch, w, s);
      PopPassLowersWeight(ch, w, s, None);
      var popped := s.(queue := s.queue[1..]);
      var e := s.queue[0];
      assert e in s.queue;
      assert forall x :: x in popped.queue ==> x in s.queue;
      HandleFirstQueue(ch, w, Begin(popped, e.envelopeId, e), e.envelopeId, e.attempt, false,
                       |s.envelopes[e.envelopeId]|);
      PassSorted(ch, w, popped, e, false);
      DrainRaisesAttempts(ch, w, PopPass(ch, w, s), now, m);
    } else if s.queue != [] {
      forall e | e in s.queue ensures e.attempt >= m + 1 {
        var j :| 0 <= j < |s.queue| && s.queue[j] == e;
        assert j == 0 || !Before(s.queue[j], s.queue[0]);
      }
    }
  }

  /** A drain called when everything queued has come due. */
  predicate LateDrain(w: World, s: State) {
    forall e :: e in s.queue ==> e.runAfter <= w.clock(s.tick)
  }

  /** After any run, three drains each called late enough leave the queue empty, and with it every
      message that passed its dedupe check completed or dead-lettered. */
  lemma ThreeLateDrainsSettleEverything(ch: Channel, w: World, ops: seq<Op>)
    requires LateDrain(w, Run(ch, w, ops))
    requires LateDrain(w, Run(ch, w, ops + [Drain]))
    requires LateDrain(w, Run(ch, w, ops + [Drain, Drain]))
    ensures var r := Run(ch, w, ops + [Drain, Drain, Drain]);
            && r.queue == []
            && (forall e :: e in r.events && e.verdict != DuplicateSkipped ==> Settled(r.events, e.envelopeId, e.index))
  {
    LateDrainRaises(ch, w, ops, 1);
    assert ops + [Drain, Drain] == ops + [Drain] + [Drain];
    LateDrainRaises(ch, w, ops + [Drain], 2);
    assert ops + [Drain, Drain, Drain] == ops + [Drain, Drain] + [Drain];
    LateDrainRaises(ch, w, ops + [Drain, Drain], 3);
    NoMessageIsLost(ch, w, ops + [Drain, Drain, Drain]);
    NoAttemptBeyond(Run(ch, w, ops + [Drain, Drain, Drain]).queue);
  }

  lemma HeadIsIn(q: seq<Entry>)
    ensures q != [] ==> exists e :: e in q
  {
    if q != [] { assert q[0] in q; }
  }

  lemma NoAttemptBeyond(q: seq<Entry>)
    requires forall e :: e in q ==> e.attempt <= MAX_RETRY_ATTEMPTS
    requires AttemptsAtLeast(q, MAX_RETRY_ATTEMPTS + 1)
    ensures q == []
  {
    HeadIsIn(q);
  }

  lemma RunStep(ch: Channel, w: World, ops: seq<Op>, op: Op)
    ensures Run(ch, w, ops + [op]) == Apply(ch, w, Run(ch, w, ops), op)
  {
    assert (ops + [op])[..|ops|] == ops;
  }

  lemma LateDrainRaises(ch: Channel, w: World, ops: seq<Op>, m: nat)
    requires LateDrain(w, Run(ch, w, ops)) && AttemptsAtLeast(Run(ch, w, ops).queue, m)
    ensures AttemptsAtLeast(Run(ch, w, ops + [Drain]).queue, m + 1)
  {
    var s := Run(ch, w, ops);
    RunSorted(ch, w, ops);
    RunStep(ch, w, ops, Drain);
    var s0 := s.(tick := s.tick + 1);
    assert forall e :: e in s0.queue ==> e.attempt >= m && e.runAfter <= w.clock(s.tick);
    DrainRaisesAttempts(ch, w, s0, w.clock(s.tick), m);
  }
}
