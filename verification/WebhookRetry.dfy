/** The retry runtime shared by the WhatsApp and the Telegram webhook: an envelope of messages is
    processed in a loop, and every recoverable failure puts the WHOLE envelope back on a queue
    ordered by due time. */
module WebhookRetry {
  import opened Options

  const MAX_RETRY_ATTEMPTS: nat := 3
  const RETRY_BASE_SECONDS: nat := 2
  const MAX_RETRY_BACKOFF_SECONDS: nat := 60
  const MICROSECONDS: nat := 1_000_000

  datatype Channel = WhatsApp | Telegram

  datatype Message = Message(messageId: Option<string>, updateId: Option<string>)

  /** Which exception families a raised exception belongs to; one exception may be in several
      (a JSON decoding error of the HTTP library is a ValueError and a RequestException). */
  datatype Failure = Failure(valueOrType: bool, transport: bool, redisOrRuntime: bool)

  datatype Outcome = Replied | Raised(failure: Failure)

  datatype Verdict = Completed | DuplicateSkipped | Rescheduled | DeadLettered

  datatype Status = Queued | Processing | Ignored | Processed | Failed

  datatype Entry = Entry(runAfter: int, envelopeId: nat, attempt: nat)

  /** One terminal audit record: message `index` of an envelope, handled in pass `attempt`. */
  datatype Event = Event(envelopeId: nat, index: nat, attempt: nat, verdict: Verdict)

  /** What the surroundings do at each tick: how handling a message ends, and what the clock reads
      (in microseconds). */
  datatype World = World(outcome: nat -> Outcome, clock: nat -> int)

  /** An envelope is named by its position in `envelopes`. `passes` records every pass made. */
  datatype State = State(
    envelopes: seq<seq<Message>>,
    status: seq<Status>,
    queue: seq<Entry>,
    claimed: set<string>,
    events: seq<Event>,
    passes: seq<Entry>,
    tick: nat)

  const EmptyState := State([], [], [], {}, [], [], 0)

  // ---------------------------------------------------------------- one message

  predicate Truthy(id: Option<string>) {
    id.Some? && id.value != ""
  }

  function IdempotencyKey(ch: Channel, m: Message): Option<string> {
    match ch
    case WhatsApp =>
      if Truthy(m.messageId) then Some("message:" + m.messageId.value)
      else if Truthy(m.updateId) then Some("update:" + m.updateId.value)
      else None
    case Telegram =>
      if Truthy(m.updateId) then Some("update:" + m.updateId.value)
      else if Truthy(m.messageId) then Some("message:" + m.messageId.value)
      else None
  }

  /** The handlers around one WhatsApp message, in the order in which they are tried. */
  datatype Handler = Validation | Provider | Persistence | Unexpected

  function WhatsAppHandler(f: Failure): Handler {
    if f.valueOrType then Validation
    else if f.transport then Provider
    else if f.redisOrRuntime then Persistence
    else Unexpected
  }

  /** The test of both channels' catch-all handlers. */
  predicate IsRecoverableException(f: Failure) {
    f.transport
  }

  predicate Recoverable(ch: Channel, f: Failure) {
    match ch
    case WhatsApp =>
      (match WhatsAppHandler(f)
       case Validation => false
       case Provider => true
       case Persistence => false
       case Unexpected => IsRecoverableException(f))
    case Telegram => IsRecoverableException(f)
  }

  function Judge(ch: Channel, outcome: Outcome, attempt: nat): Verdict {
    match outcome
    case Replied => Completed
    case Raised(f) =>
      if Recoverable(ch, f) && attempt < MAX_RETRY_ATTEMPTS then Rescheduled else DeadLettered
  }

  function Pow2(k: nat): nat {
    if k == 0 then 1 else 2 * Pow2(k - 1)
  }

  /** Seconds to wait before the given attempt. */
  function Backoff(attempt: nat): nat {
    var grown := RETRY_BASE_SECONDS * Pow2(if attempt == 0 then 0 else attempt - 1);
    if grown < MAX_RETRY_BACKOFF_SECONDS then grown else MAX_RETRY_BACKOFF_SECONDS
  }

  /** The order of the heap's tuples. */
  predicate Before(a: Entry, b: Entry) {
    || a.runAfter < b.runAfter
    || (a.runAfter == b.runAfter && a.envelopeId < b.envelopeId)
    || (a.runAfter == b.runAfter && a.envelopeId == b.envelopeId && a.attempt < b.attempt)
  }

  /** The min-priority queue is kept as the sequence in which it would be popped. */
  function Insert(q: seq<Entry>, e: Entry): seq<Entry> {
    if q == [] || Before(e, q[0]) then [e] + q else [q[0]] + Insert(q[1..], e)
  }

  function Handle(ch: Channel, w: World, s: State, id: nat, attempt: nat, enforce: bool, i: nat): State
    requires id < |s.envelopes| && i < |s.envelopes[id]|
  {
    var key := IdempotencyKey(ch, s.envelopes[id][i]);
    if enforce && key.Some? && key.value in s.claimed then
      s.(events := s.events + [Event(id, i, attempt, DuplicateSkipped)])
    else
      var verdict := Judge(ch, w.outcome(s.tick), attempt);
      s.(claimed := if enforce && key.Some? then s.claimed + {key.value} else s.claimed,
         queue := if verdict == Rescheduled
                  then Insert(s.queue, Entry(w.clock(s.tick) + Backoff(attempt + 1) * MICROSECONDS, id, attempt + 1))
                  else s.queue,
         events := s.events + [Event(id, i, attempt, verdict)],
         tick := s.tick + 1)
  }

  // ---------------------------------------------------------------- one pass over an envelope

  /** The state after the first k messages of the envelope. */
  function HandleFirst(ch: Channel, w: World, s: State, id: nat, attempt: nat, enforce: bool, k: nat): (r: State)
    requires id < |s.envelopes| && k <= |s.envelopes[id]|
    ensures r.envelopes == s.envelopes && r.status == s.status && r.passes == s.passes
    ensures |r.events| == |s.events| + k
    ensures s.tick <= r.tick && s.claimed <= r.claimed
  {
    if k == 0 then s
    else Handle(ch, w, HandleFirst(ch, w, s, id, attempt, enforce, k - 1), id, attempt, enforce, k - 1)
  }

  predicate Saw(events: seq<Event>, v: Verdict) {
    exists j :: 0 <= j < |events| && events[j].verdict == v
  }

  function FinalStatus(events: seq<Event>): Status {
    if Saw(events, DeadLettered) then Failed else if Saw(events, Rescheduled) then Queued else Processed
  }

  function Begin(s: State, id: nat, entry: Entry): State
    requires id < |s.envelopes| == |s.status|
  {
    s.(status := s.status[id := Processing], passes := s.passes + [entry])
  }

  function Pass(ch: Channel, w: World, s: State, entry: Entry, enforce: bool): State
    requires entry.envelopeId < |s.envelopes| == |s.status|
  {
    var id := entry.envelopeId;
    var s0 := Begin(s, id, entry);
    if s.envelopes[id] == [] then s0.(status := s0.status[id := Ignored])
    else
      var s1 := HandleFirst(ch, w, s0, id, entry.attempt, enforce, |s.envelopes[id]|);
      s1.(status := s1.status[id := FinalStatus(s1.events[|s.events|..])])
  }

  // ---------------------------------------------------------------- runs

  predicate Sane(s: State) {
    && |s.status| == |s.envelopes|
    && (forall e :: e in s.queue ==> e.envelopeId < |s.envelopes| && 1 <= e.attempt <= MAX_RETRY_ATTEMPTS)
  }

  predicate Due(s: State, now: int) {
    s.queue != [] && s.queue[0].runAfter <= now
  }

  function PopPass(ch: Channel, w: World, s: State): State
    requires Sane(s) && s.queue != []
  {
    Pass(ch, w, s.(queue := s.queue[1..]), s.queue[0], false)
  }

  /** The drain loop, with the clock read once at its start. */
  function DrainAt(ch: Channel, w: World, s: State, now: int): (r: State)
    requires Sane(s)
    ensures Sane(r)
    decreases Weight(s.envelopes, s.queue, None)
  {
    if !Due(s, now) then s
    else
      PopPassSane(ch, w, s);
      PopPassLowersWeight(ch, w, s, None);
      DrainAt(ch, w, PopPass(ch, w, s), now)
  }

  datatype Op = Deliver(messages: seq<Message>, enforce: bool) | Drain

  function Admit(s: State, messages: seq<Message>): State {
    s.(envelopes := s.envelopes + [messages], status := s.status + [Queued])
  }

  function Apply(ch: Channel, w: World, s: State, op: Op): (r: State)
    requires Sane(s)
    ensures Sane(r)
  {
    match op
    case Deliver(messages, enforce) =>
      var s0 := Admit(s, messages);
      PassSane(ch, w, s0, Entry(0, |s.envelopes|, 0), enforce);
      Pass(ch, w, s0, Entry(0, |s.envelopes|, 0), enforce)
    case Drain => DrainAt(ch, w, s.(tick := s.tick + 1), w.clock(s.tick))
  }

  function Run(ch: Channel, w: World, ops: seq<Op>): (r: State)
    ensures Sane(r)
  {
    if ops == [] then EmptyState else Apply(ch, w, Run(ch, w, ops[..|ops| - 1]), ops[|ops| - 1])
  }

  // ---------------------------------------------------------------- the queue

  lemma {:induction false} InsertSplits(q: seq<Entry>, e: Entry) returns (p: nat)
    ensures p <= |q| && Insert(q, e) == q[..p] + [e] + q[p..]
    ensures forall j :: 0 <= j < p ==> !Before(e, q[j])
    ensures p < |q| ==> Before(e, q[p])
  {
    if q == [] || Before(e, q[0]) {
      p := 0;
    } else {
      var p' := InsertSplits(q[1..], e);
      p := p' + 1;
      SplitShifts(q, e, p');
      forall j | 0 <= j < p ensures !Before(e, q[j]) {
        if j > 0 { assert q[j] == q[1..][j - 1]; }
      }
    }
  }

  lemma SplitShifts(q: seq<Entry>, e: Entry, p: nat)
    requires p < |q|
    ensures [q[0]] + (q[1..][..p] + [e] + q[1..][p..]) == q[..p + 1] + [e] + q[p + 1..]
  {
    assert q[1..][..p] == q[1..p + 1] && q[1..][p..] == q[p + 1..];
    assert [q[0]] + q[1..p + 1] == q[..p + 1];
  }

  // ---------------------------------------------------------------- weights

  /** How many passes an entry for attempt a of an n-message envelope can cause, itself included. */
  function EntryWeight(n: nat, a: nat): nat
    decreases MAX_RETRY_ATTEMPTS - a
  {
    if a >= MAX_RETRY_ATTEMPTS then 1 else 1 + n * EntryWeight(n, a + 1)
  }

  /** Every envelope, or one of them. */
  predicate Selected(sel: Option<nat>, id: nat) {
    sel.None? || sel.value == id
  }

  function WeightOf(envs: seq<seq<Message>>, e: Entry, sel: Option<nat>): nat {
    if Selected(sel, e.envelopeId) && e.envelopeId < |envs| then EntryWeight(|envs[e.envelopeId]|, e.attempt) else 0
  }

  function Weight(envs: seq<seq<Message>>, q: seq<Entry>, sel: Option<nat>): nat {
    if q == [] then 0 else WeightOf(envs, q[0], sel) + Weight(envs, q[1..], sel)
  }

  lemma {:induction false} WeightOfInsert(envs: seq<seq<Message>>, q: seq<Entry>, e: Entry, sel: Option<nat>)
    ensures Weight(envs, Insert(q, e), sel) == Weight(envs, q, sel) + WeightOf(envs, e, sel)
  {
    if q == [] || Before(e, q[0]) {
      assert Insert(q, e)[1..] == q;
    } else {
      WeightOfInsert(envs, q[1..], e, sel);
      assert Insert(q, e)[1..] == Insert(q[1..], e);
    }
  }

  function ChildWeight(n: nat, attempt: nat): nat {
    if attempt < MAX_RETRY_ATTEMPTS then EntryWeight(n, attempt + 1) else 0
  }

  /** A world in which every message fails in a way that is retried. */
  ghost predicate AlwaysRetries(ch: Channel, w: World) {
    forall t: nat :: w.outcome(t).Raised? && Recoverable(ch, w.outcome(t).failure)
  }

  lemma HandleWeight(ch: Channel, w: World, s: State, id: nat, attempt: nat, enforce: bool, i: nat, sel: Option<nat>)
    requires id < |s.envelopes| && i < |s.envelopes[id]|
    ensures var child := if Selected(sel, id) then ChildWeight(|s.envelopes[id]|, attempt) else 0;
            var before := Weight(s.envelopes, s.queue, sel);
            var after := Weight(s.envelopes, Handle(ch, w, s, id, attempt, enforce, i).queue, sel);
            && after <= before + child
            && (AlwaysRetries(ch, w) && !enforce ==> after == before + child)
  {
    var e := Entry(w.clock(s.tick) + Backoff(attempt + 1) * MICROSECONDS, id, attempt + 1);
    WeightOfInsert(s.envelopes, s.queue, e, sel);
  }

  lemma OneMore(k: nat, c: nat)
    requires k > 0
    ensures (k - 1) * c + c == k * c
  {
  }

  lemma {:induction false} HandleFirstWeight(ch: Channel, w: World, s: State, id: nat, attempt: nat, enforce: bool,
                                             k: nat, sel: Option<nat>)
    requires id < |s.envelopes| && k <= |s.envelopes[id]|
    ensures var child := if Selected(sel, id) then ChildWeight(|s.envelopes[id]|, attempt) else 0;
            var before := Weight(s.envelopes, s.queue, sel);
            var after := Weight(s.envelopes, HandleFirst(ch, w, s, id, attempt, enforce, k).queue, sel);
            && after <= before + k * child
            && (AlwaysRetries(ch, w) && !enforce ==> after == before + k * child)
  {
    if k > 0 {
      HandleFirstWeight(ch, w, s, id, attempt, enforce, k - 1, sel);
      HandleWeight(ch, w, HandleFirst(ch, w, s, id, attempt, enforce, k - 1), id, attempt, enforce, k - 1, sel);
      OneMore(k, if Selected(sel, id) then ChildWeight(|s.envelopes[id]|, attempt) else 0);
    }
  }

  /** A pass costs one unit of the weight of the entry it was made for. */
  lemma PassWeight(ch: Channel, w: World, s: State, entry: Entry, enforce: bool, sel: Option<nat>)
    requires entry.envelopeId < |s.envelopes| == |s.status|
    ensures var own := if Selected(sel, entry.envelopeId)
                       then EntryWeight(|s.envelopes[entry.envelopeId]|, entry.attempt) - 1 else 0;
            var before := Weight(s.envelopes, s.queue, sel);
            var after := Weight(s.envelopes, Pass(ch, w, s, entry, enforce).queue, sel);
            && after <= before + own
            && (AlwaysRetries(ch, w) && !enforce ==> after == before + own)
  {
    var id := entry.envelopeId;
    HandleFirstWeight(ch, w, Begin(s, id, entry), id, entry.attempt, enforce, |s.envelopes[id]|, sel);
  }

  lemma PopPassLowersWeight(ch: Channel, w: World, s: State, sel: Option<nat>)
    requires Sane(s) && s.queue != [] && Selected(sel, s.queue[0].envelopeId)
    ensures Weight(s.envelopes, PopPass(ch, w, s).queue, sel) < Weight(s.envelopes, s.queue, sel)
  {
    PassWeight(ch, w, s.(queue := s.queue[1..]), s.queue[0], false, sel);
  }

  // ---------------------------------------------------------------- what a pass leaves in the queue

  /** An entry that a pass of the given attempt may add. */
  predicate IsRetry(e: Entry, id: nat, attempt: nat) {
    attempt < MAX_RETRY_ATTEMPTS && e.envelopeId == id && e.attempt == attempt + 1
  }

  lemma HandleQueue(ch: Channel, w: World, s: State, id: nat, attempt: nat, enforce: bool, i: nat)
    requires id < |s.envelopes| && i < |s.envelopes[id]|
    ensures var r := Handle(ch, w, s, id, attempt, enforce, i);
            && (forall e :: e in r.queue ==> e in s.queue || IsRetry(e, id, attempt))
            && (forall e :: e in s.queue ==> e in r.queue)
  {
    InsertMembers(s.queue, Entry(w.clock(s.tick) + Backoff(attempt + 1) * MICROSECONDS, id, attempt + 1));
  }

  lemma InsertMembers(q: seq<Entry>, e: Entry)
    ensures forall x :: x in Insert(q, e) <==> x in q || x == e
  {
    var at := InsertSplits(q, e);
    assert q == q[..at] + q[at..];
  }

  lemma {:induction false} HandleFirstQueue(ch: Channel, w: World, s: State, id: nat, attempt: nat, enforce: bool,
                                            k: nat)
    requires id < |s.envelopes| && k <= |s.envelopes[id]|
    ensures var r := HandleFirst(ch, w, s, id, attempt, enforce, k);
            && (forall e :: e in r.queue ==> e in s.queue || IsRetry(e, id, attempt))
            && (forall e :: e in s.queue ==> e in r.queue)
  {
    if k > 0 {
      HandleFirstQueue(ch, w, s, id, attempt, enforce, k - 1);
      HandleQueue(ch, w, HandleFirst(ch, w, s, id, attempt, enforce, k - 1), id, attempt, enforce, k - 1);
    }
  }

  lemma PassSane(ch: Channel, w: World, s: State, entry: Entry, enforce: bool)
    requires Sane(s) && entry.envelopeId < |s.envelopes|
    ensures Sane(Pass(ch, w, s, entry, enforce))
  {
    var id := entry.envelopeId;
    HandleFirstQueue(ch, w, Begin(s, id, entry), id, entry.attempt, enforce, |s.envelopes[id]|);
  }

  lemma PopPassSane(ch: Channel, w: World, s: State)
    requires Sane(s) && s.queue != []
    ensures Sane(PopPass(ch, w, s))
  {
    PassSane(ch, w, s.(queue := s.queue[1..]), s.queue[0], false);
  }
}
