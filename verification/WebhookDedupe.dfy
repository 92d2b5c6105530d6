/** What the dedupe store prevents, and what it does not. */
module WebhookDedupe {
  import opened Options
  import opened WebhookRetry
  import opened WebhookRetryProperties
  import opened WebhookVerdicts

  // ---------------------------------------------------------------- dedupe

  predicate Identifies(id: Option<string>) {
    id.Some? && |id.value| > 0
  }

  /** Two messages share a dedupe key exactly when the first identifier that the channel looks at and
      finds non-empty is of the same kind and equal in both. */
  lemma KeysAgreeIff(m: Message, n: Message)
    ensures forall ch :: IdempotencyKey(ch, m).None? <==> !Identifies(m.messageId) && !Identifies(m.updateId)
    ensures IdempotencyKey(WhatsApp, m) == IdempotencyKey(WhatsApp, n) <==>
            || (Identifies(m.messageId) && m.messageId == n.messageId)
            || (!Identifies(m.messageId) && !Identifies(n.messageId)
                && Identifies(m.updateId) && m.updateId == n.updateId)
            || (!Identifies(m.messageId) && !Identifies(n.messageId)
                && !Identifies(m.updateId) && !Identifies(n.updateId))
    ensures IdempotencyKey(Telegram, m) == IdempotencyKey(Telegram, n) <==>
            || (Identifies(m.updateId) && m.updateId == n.updateId)
            || (!Identifies(m.updateId) && !Identifies(n.updateId)
                && Identifies(m.messageId) && m.messageId == n.messageId)
            || (!Identifies(m.messageId) && !Identifies(n.messageId)
                && !Identifies(m.updateId) && !Identifies(n.updateId))
  {
    var mm, mu := KeyText("message:", m.messageId), KeyText("update:", m.updateId);
    var nm, nu := KeyText("message:", n.messageId), KeyText("update:", n.updateId);
    assert mm != "" && nu != "" ==> mm[0] != nu[0];
    assert nm != "" && mu != "" ==> nm[0] != mu[0];
    assert mm[|"message:"|..] == if m.messageId.Some? then m.messageId.value else "";
    assert nm[|"message:"|..] == if n.messageId.Some? then n.messageId.value else "";
    assert mu[|"update:"|..] == if m.updateId.Some? then m.updateId.value else "";
    assert nu[|"update:"|..] == if n.updateId.Some? then n.updateId.value else "";
  }

  function KeyText(prefix: string, id: Option<string>): string {
    if id.Some? then prefix + id.value else prefix
  }

  predicate AllClaimed(ch: Channel, messages: seq<Message>, claimed: set<string>) {
    forall m :: m in messages ==> IdempotencyKey(ch, m).Some? && IdempotencyKey(ch, m).value in claimed
  }

  lemma {:induction false} HandleFirstClaims(ch: Channel, w: World, s: State, id: nat, attempt: nat, k: nat, j: nat)
    requires id < |s.envelopes| && j < k <= |s.envelopes[id]|
    ensures var key := IdempotencyKey(ch, s.envelopes[id][j]);
            key.Some? ==> key.value in HandleFirst(ch, w, s, id, attempt, true, k).claimed
  {
    if j < k - 1 { HandleFirstClaims(ch, w, s, id, attempt, k - 1, j); }
  }

  lemma {:induction false} DrainKeepsClaims(ch: Channel, w: World, s: State, now: int)
    requires Sane(s)
    ensures s.claimed <= DrainAt(ch, w, s, now).claimed
    decreases Weight(s.envelopes, s.queue, None)
  {
    if Due(s, now) {
      PopPassSane(ch, w, s);
      PopPassLowersWeight(ch, w, s, None);
      DrainKeepsClaims(ch, w, PopPass(ch, w, s), now);
    }
  }

  /** A delivery that consults the store claims all its keys. */
  lemma DeliverClaims(ch: Channel, w: World, s: State, messages: seq<Message>)
    requires Sane(s) && forall m :: m in messages ==> IdempotencyKey(ch, m).Some?
    ensures AllClaimed(ch, messages, Apply(ch, w, s, Deliver(messages, true)).claimed)
  {
    var s0 := Begin(Admit(s, messages), |s.envelopes|, Entry(0, |s.envelopes|, 0));
    var claimed := HandleFirst(ch, w, s0, |s.envelopes|, 0, true, |messages|).claimed;
    forall m | m in messages ensures IdempotencyKey(ch, m).value in claimed {
      var j :| 0 <= j < |messages| && messages[j] == m;
      HandleFirstClaims(ch, w, s0, |s.envelopes|, 0, |messages|, j);
    }
  }

  lemma ClaimsStay(ch: Channel, w: World, s: State, op: Op)
    requires Sane(s)
    ensures s.claimed <= Apply(ch, w, s, op).claimed
  {
    if op == Drain { DrainKeepsClaims(ch, w, s.(tick := s.tick + 1), w.clock(s.tick)); }
  }

  /** Keys once claimed stay claimed, so all keys of an earlier delivery are. */
  lemma {:induction false} DeliveredKeysAreClaimed(ch: Channel, w: World, ops: seq<Op>, i: nat)
    requires i < |ops| && ops[i].Deliver? && ops[i].enforce
    requires forall m :: m in ops[i].messages ==> IdempotencyKey(ch, m).Some?
    ensures AllClaimed(ch, ops[i].messages, Run(ch, w, ops).claimed)
  {
    var s := Run(ch, w, ops[..|ops| - 1]);
    if i == |ops| - 1 {
      DeliverClaims(ch, w, s, ops[i].messages);
    } else {
      DeliveredKeysAreClaimed(ch, w, ops[..|ops| - 1], i);
      ClaimsStay(ch, w, s, ops[|ops| - 1]);
    }
  }

  lemma {:induction false} ClaimedMessagesAreSkipped(ch: Channel, w: World, s: State, id: nat, attempt: nat, k: nat)
    requires id < |s.envelopes| && k <= |s.envelopes[id]| && AllClaimed(ch, s.envelopes[id], s.claimed)
    ensures var r := HandleFirst(ch, w, s, id, attempt, true, k);
            && r.queue == s.queue && r.claimed == s.claimed && r.tick == s.tick
            && (forall e :: e in r.events[|s.events|..] ==> e.verdict == DuplicateSkipped)
  {
    if k > 0 {
      ClaimedMessagesAreSkipped(ch, w, s, id, attempt, k - 1);
      assert s.envelopes[id][k - 1] in s.envelopes[id];
    }
  }

  /** A redelivery of a payload whose messages all carry an identifier, at any later point of any
      run, handles nothing and schedules nothing. */
  lemma RedeliveryIsInert(ch: Channel, w: World, ops: seq<Op>, i: nat)
    requires i < |ops| && ops[i].Deliver? && ops[i].enforce
    requires forall m :: m in ops[i].messages ==> IdempotencyKey(ch, m).Some?
    ensures var s := Run(ch, w, ops);
            var r := Apply(ch, w, s, ops[i]);
            && r.queue == s.queue && r.claimed == s.claimed && r.tick == s.tick
            && (forall e :: e in r.events[|s.events|..] ==> e.verdict == DuplicateSkipped)
            && (ops[i].messages != [] ==> r.status[|s.envelopes|] == Processed)
  {
    DeliveredKeysAreClaimed(ch, w, ops, i);
    var s := Run(ch, w, ops);
    var messages := ops[i].messages;
    var entry := Entry(0, |s.envelopes|, 0);
    var s0 := Begin(Admit(s, messages), |s.envelopes|, entry);
    ClaimedMessagesAreSkipped(ch, w, s0, |s.envelopes|, 0, |messages|);
    var r := HandleFirst(ch, w, s0, |s.envelopes|, 0, true, |messages|);
    forall j | 0 <= j < |r.events[|s.events|..]| ensures r.events[|s.events|..][j].verdict == DuplicateSkipped {
      assert r.events[|s.events|..][j] in r.events[|s.events|..];
    }
  }

  // ---------------------------------------------------------------- a skip drops nothing

  function KeyOf(ch: Channel, envs: seq<seq<Message>>, e: Event): Option<string> {
    if e.envelopeId < |envs| && e.index < |envs[e.envelopeId]| then IdempotencyKey(ch, envs[e.envelopeId][e.index])
    else None
  }

  /** Record j is of a message with the key, and not a skip. */
  predicate HandlesKey(ch: Channel, envs: seq<seq<Message>>, e: Event, x: string) {
    e.verdict != DuplicateSkipped && KeyOf(ch, envs, e) == Some(x)
  }

  /** One of the first n records handles the key. */
  predicate KeyHandled(ch: Channel, envs: seq<seq<Message>>, events: seq<Event>, n: nat, x: string)
    requires n <= |events|
  {
    exists j :: 0 <= j < n && HandlesKey(ch, envs, events[j], x)
  }

  /** The k-th record, if a skip, has a record before it that handles its key. */
  predicate SkipExplained(ch: Channel, envs: seq<seq<Message>>, events: seq<Event>, k: nat)
    requires k < |events|
  {
    events[k].verdict == DuplicateSkipped ==>
      KeyOf(ch, envs, events[k]).Some? && KeyHandled(ch, envs, events, k, KeyOf(ch, envs, events[k]).value)
  }

  predicate Explained(ch: Channel, s: State) {
    && (forall x :: x in s.claimed ==> KeyHandled(ch, s.envelopes, s.events, |s.events|, x))
    && (forall k :: 0 <= k < |s.events| ==> SkipExplained(ch, s.envelopes, s.events, k))
  }

  lemma KeyStaysHandled(ch: Channel, envs: seq<seq<Message>>, events: seq<Event>, e: Event, n: nat, x: string)
    requires n <= |events| && KeyHandled(ch, envs, events, n, x)
    ensures KeyHandled(ch, envs, events + [e], n, x) && KeyHandled(ch, envs, events + [e], |events| + 1, x)
  {
    var j :| 0 <= j < n && HandlesKey(ch, envs, events[j], x);
    assert (events + [e])[j] == events[j];
  }

  /** A new record keeps the earlier ones explained. */
  lemma AppendKeepsExplained(ch: Channel, envs: seq<seq<Message>>, events: seq<Event>, e: Event, k: nat)
    requires k < |events| && SkipExplained(ch, envs, events, k)
    ensures SkipExplained(ch, envs, events + [e], k)
  {
    if events[k].verdict == DuplicateSkipped {
      KeyStaysHandled(ch, envs, events, e, k, KeyOf(ch, envs, events[k]).value);
    }
  }

  lemma HandleExplained(ch: Channel, w: World, s: State, id: nat, attempt: nat, enforce: bool, i: nat)
    requires id < |s.envelopes| && i < |s.envelopes[id]| && Explained(ch, s)
    ensures Explained(ch, Handle(ch, w, s, id, attempt, enforce, i))
  {
    var r := Handle(ch, w, s, id, attempt, enforce, i);
    var e := r.events[|s.events|];
    var key := IdempotencyKey(ch, s.envelopes[id][i]);
    assert r.events == s.events + [e] && KeyOf(ch, s.envelopes, e) == key;
    forall k | 0 <= k < |r.events| ensures SkipExplained(ch, r.envelopes, r.events, k) {
      if k < |s.events| {
        AppendKeepsExplained(ch, s.envelopes, s.events, e, k);
      } else if e.verdict == DuplicateSkipped {
        KeyStaysHandled(ch, s.envelopes, s.events, e, |s.events|, key.value);
      }
    }
    forall x | x in r.claimed ensures KeyHandled(ch, r.envelopes, r.events, |r.events|, x) {
      if x in s.claimed {
        KeyStaysHandled(ch, s.envelopes, s.events, e, |s.events|, x);
      } else {
        assert HandlesKey(ch, r.envelopes, r.events[|s.events|], x);
      }
    }
  }

  lemma {:induction false} HandleFirstExplained(ch: Channel, w: World, s: State, id: nat, attempt: nat, enforce: bool,
                                                k: nat)
    requires id < |s.envelopes| && k <= |s.envelopes[id]| && Explained(ch, s)
    ensures Explained(ch, HandleFirst(ch, w, s, id, attempt, enforce, k))
  {
    if k > 0 {
      HandleFirstExplained(ch, w, s, id, attempt, enforce, k - 1);
      HandleExplained(ch, w, HandleFirst(ch, w, s, id, attempt, enforce, k - 1), id, attempt, enforce, k - 1);
    }
  }

  lemma PassExplained(ch: Channel, w: World, s: State, entry: Entry, enforce: bool)
    requires entry.envelopeId < |s.envelopes| == |s.status| && Explained(ch, s)
    ensures Explained(ch, Pass(ch, w, s, entry, enforce))
  {
    var id := entry.envelopeId;
    HandleFirstExplained(ch, w, Begin(s, id, entry), id, entry.attempt, enforce, |s.envelopes[id]|);
  }

  lemma {:induction false} DrainExplained(ch: Channel, w: World, s: State, now: int)
    requires Sane(s) && Explained(ch, s)
    ensures Explained(ch, DrainAt(ch, w, s, now))
    decreases Weight(s.envelopes, s.queue, None)
  {
    if Due(s, now) {
      PopPassSane(ch, w, s);
      PopPassLowersWeight(ch, w, s, None);
      PassExplained(ch, w, s.(queue := s.queue[1..]), s.queue[0], false);
      DrainExplained(ch, w, PopPass(ch, w, s), now);
    }
  }

  lemma AdmitKeepsKey(ch: Channel, s: State, messages: seq<Message>, j: nat)
    requires EventsInRange(s) && j < |s.events|
    ensures KeyOf(ch, Admit(s, messages).envelopes, s.events[j]) == KeyOf(ch, s.envelopes, s.events[j])
  {
    assert s.events[j] in s.events;
  }

  lemma AdmitKeepsHandled(ch: Channel, s: State, messages: seq<Message>, n: nat, x: string)
    requires EventsInRange(s) && n <= |s.events| && KeyHandled(ch, s.envelopes, s.events, n, x)
    ensures KeyHandled(ch, Admit(s, messages).envelopes, s.events, n, x)
  {
    var j :| 0 <= j < n && HandlesKey(ch, s.envelopes, s.events[j], x);
    AdmitKeepsKey(ch, s, messages, j);
    assert HandlesKey(ch, Admit(s, messages).envelopes, s.events[j], x);
  }

  lemma AdmitExplained(ch: Channel, s: State, messages: seq<Message>)
    requires EventsInRange(s) && Explained(ch, s)
    ensures Explained(ch, Admit(s, messages))
  {
    var r := Admit(s, messages);
    forall x | x in r.claimed ensures KeyHandled(ch, r.envelopes, r.events, |r.events|, x) {
      AdmitKeepsHandled(ch, s, messages, |s.events|, x);
    }
    forall k | 0 <= k < |r.events| ensures SkipExplained(ch, r.envelopes, r.events, k) {
      AdmitKeepsKey(ch, s, messages, k);
      assert SkipExplained(ch, s.envelopes, s.events, k);
      if r.events[k].verdict == DuplicateSkipped {
        AdmitKeepsHandled(ch, s, messages, k, KeyOf(ch, s.envelopes, s.events[k]).value);
      }
    }
  }

  lemma {:induction false} RunsAreExplained(ch: Channel, w: World, ops: seq<Op>)
    ensures Explained(ch, Run(ch, w, ops))
  {
    if ops != [] {
      var init := ops[..|ops| - 1];
      var s := Run(ch, w, init);
      RunsAreExplained(ch, w, init);
      NoMessageIsLost(ch, w, init);
      match ops[|ops| - 1]
      case Deliver(messages, enforce) =>
        AdmitExplained(ch, s, messages);
        PassExplained(ch, w, Admit(s, messages), Entry(0, |s.envelopes|, 0), enforce);
      case Drain => DrainExplained(ch, w, s.(tick := s.tick + 1), w.clock(s.tick));
    }
  }

  /** A skip drops nothing. In every run each skip has an earlier record, not a skip, of a message with the
      same dedupe key; and that message is settled or its envelope is queued. */
  lemma SkipsDropNothing(ch: Channel, w: World, ops: seq<Op>, k: nat) returns (j: nat)
    requires k < |Run(ch, w, ops).events| && Run(ch, w, ops).events[k].verdict == DuplicateSkipped
    ensures var s := Run(ch, w, ops);
            && j < k && s.events[j].verdict != DuplicateSkipped
            && KeyOf(ch, s.envelopes, s.events[k]).Some?
            && KeyOf(ch, s.envelopes, s.events[j]) == KeyOf(ch, s.envelopes, s.events[k])
            && (Settled(s.events, s.events[j].envelopeId, s.events[j].index)
                || Waiting(s.queue, s.events[j].envelopeId))
  {
    var s := Run(ch, w, ops);
    RunsAreExplained(ch, w, ops);
    NoMessageIsLost(ch, w, ops);
    assert SkipExplained(ch, s.envelopes, s.events, k);
    j :| 0 <= j < k && HandlesKey(ch, s.envelopes, s.events[j], KeyOf(ch, s.envelopes, s.events[k]).value);
    assert s.events[j] in s.events;
  }

  // ---------------------------------------------------------------- the limit of the dedupe

  predicate HandledSince(s: State, r: State, id: nat, i: nat)
    requires |s.events| <= |r.events|
  {
    exists e :: e in r.events[|s.events|..] && e.envelopeId == id && e.index == i && e.verdict != DuplicateSkipped
  }

  lemma PopPassHandles(ch: Channel, w: World, s: State, id: nat, i: nat)
    requires Sane(s) && s.queue != [] && id < |s.envelopes| && i < |s.envelopes[id]|
    ensures var p := PopPass(ch, w, s);
            s.events <= p.events && (HandledSince(s, p, id, i) <==> s.queue[0].envelopeId == id)
  {
    var e := s.queue[0];
    var p := PopPass(ch, w, s);
    PassEvents(ch, w, s.(queue := s.queue[1..]), e, false);
    var written := p.events[|s.events|..];
    forall j | 0 <= j < |written| ensures written[j].envelopeId == e.envelopeId {
      assert Records(p.events, |s.events|, j, e, false);
    }
    if e.envelopeId == id {
      assert Records(p.events, |s.events|, i, e, false);
      assert written[i] in written;
    }
  }

  lemma HandledSinceSplits(s: State, p: State, r: State, id: nat, i: nat)
    requires s.events <= p.events <= r.events
    ensures HandledSince(s, r, id, i) <==> HandledSince(s, p, id, i) || HandledSince(p, r, id, i)
  {
    assert r.events[|s.events|..] == p.events[|s.events|..] + r.events[|p.events|..];
  }

  lemma PopPassQueue(ch: Channel, w: World, s: State, id: nat)
    requires Sane(s) && s.queue != []
    ensures var p := PopPass(ch, w, s);
            && (s.queue[0].envelopeId != id ==> (Waiting(p.queue, id) ==> Waiting(s.queue, id)))
            && (forall e :: e in s.queue[1..] ==> e in p.queue)
  {
    var popped := s.(queue := s.queue[1..]);
    var e := s.queue[0];
    HandleFirstQueue(ch, w, Begin(popped, e.envelopeId, e), e.envelopeId, e.attempt, false,
                     |s.envelopes[e.envelopeId]|);
  }

  lemma {:induction false} DrainHandles(ch: Channel, w: World, s: State, now: int, id: nat, i: nat)
    requires Sane(s) && id < |s.envelopes| && i < |s.envelopes[id]|
    ensures var r := DrainAt(ch, w, s, now);
            && s.events <= r.events
            && (HandledSince(s, r, id, i) ==> Waiting(s.queue, id))
    decreases Weight(s.envelopes, s.queue, None)
  {
    if Due(s, now) {
      PopPassSane(ch, w, s);
      PopPassLowersWeight(ch, w, s, None);
      var p := PopPass(ch, w, s);
      PopPassHandles(ch, w, s, id, i);
      PopPassQueue(ch, w, s, id);
      DrainHandles(ch, w, p, now, id, i);
      HandledSinceSplits(s, p, DrainAt(ch, w, s, now), id, i);
    }
  }

  /** A drain handles a message with its first pass or with those after it. */
  lemma DrainStep(ch: Channel, w: World, s: State, now: int, id: nat, i: nat)
    requires Sane(s) && Due(s, now) && id < |s.envelopes| && i < |s.envelopes[id]|
    ensures var p, r := PopPass(ch, w, s), DrainAt(ch, w, s, now);
            && Sane(p) && p.envelopes == s.envelopes && r == DrainAt(ch, w, p, now)
            && Weight(p.envelopes, p.queue, None) < Weight(s.envelopes, s.queue, None)
            && s.events <= p.events <= r.events
            && (HandledSince(s, r, id, i) <==> s.queue[0].envelopeId == id || HandledSince(p, r, id, i))
  {
    PopPassSane(ch, w, s);
    PopPassLowersWeight(ch, w, s, None);
    var p := PopPass(ch, w, s);
    PopPassHandles(ch, w, s, id, i);
    DrainHandles(ch, w, p, now, id, i);
    HandledSinceSplits(s, p, DrainAt(ch, w, p, now), id, i);
  }

  lemma {:induction false} DrainReaches(ch: Channel, w: World, s: State, now: int, id: nat, i: nat, e: Entry)
    requires Sane(s) && Sorted(s.queue) && id < |s.envelopes| && i < |s.envelopes[id]|
    requires e in s.queue && e.envelopeId == id && e.runAfter <= now
    ensures var r := DrainAt(ch, w, s, now);
            s.events <= r.events && HandledSince(s, r, id, i)
    decreases Weight(s.envelopes, s.queue, None)
  {
    var at :| 0 <= at < |s.queue| && s.queue[at] == e;
    assert at == 0 || !Before(s.queue[at], s.queue[0]);
    DrainStep(ch, w, s, now, id, i);
    if at > 0 {
      PopPassQueue(ch, w, s, id);
      PassSorted(ch, w, s.(queue := s.queue[1..]), s.queue[0], false);
      assert s.queue[1..][at - 1] == e;
      DrainReaches(ch, w, PopPass(ch, w, s), now, id, i, e);
    }
  }

  /** The dedupe check guards the first pass only. A message of a delivered envelope - one skipped as a
      duplicate included - is handled by the next late drain exactly when its envelope is queued, that
      is, when some message of the envelope failed recoverably. */
  lemma {:induction false} SkippedMessageIsHandledLaterIffQueued(ch: Channel, w: World, ops: seq<Op>, id: nat, i: nat)
    requires var s := Run(ch, w, ops);
             id < |s.envelopes| && i < |s.envelopes[id]| && LateDrain(w, s)
    ensures var s := Run(ch, w, ops);
            var r := Apply(ch, w, s, Drain);
            s.events <= r.events && (HandledSince(s, r, id, i) <==> Waiting(s.queue, id))
  {
    RunSorted(ch, w, ops);
    var s := Run(ch, w, ops);
    DrainHandles(ch, w, s.(tick := s.tick + 1), w.clock(s.tick), id, i);
    if Waiting(s.queue, id) {
      var e :| e in s.queue && e.envelopeId == id;
      DrainReaches(ch, w, s.(tick := s.tick + 1), w.clock(s.tick), id, i, e);
    }
  }

  // ---------------------------------------------------------------- how often a message is handled

  /** The records of a message that are skips, and those that are not. */
  function SkipsOf(events: seq<Event>, id: nat, i: nat): nat {
    if events == [] then 0
    else
      var e := events[|events| - 1];
      SkipsOf(events[..|events| - 1], id, i) +
      (if e.envelopeId == id && e.index == i && e.verdict == DuplicateSkipped then 1 else 0)
  }

  function HandlingsOf(events: seq<Event>, id: nat, i: nat): nat {
    if events == [] then 0
    else
      var e := events[|events| - 1];
      HandlingsOf(events[..|events| - 1], id, i) +
      (if e.envelopeId == id && e.index == i && e.verdict != DuplicateSkipped then 1 else 0)
  }

  lemma CountsAppend(events: seq<Event>, e: Event, id: nat, i: nat)
    ensures SkipsOf(events + [e], id, i) == SkipsOf(events, id, i) +
              (if e.envelopeId == id && e.index == i && e.verdict == DuplicateSkipped then 1 else 0)
    ensures HandlingsOf(events + [e], id, i) == HandlingsOf(events, id, i) +
              (if e.envelopeId == id && e.index == i && e.verdict != DuplicateSkipped then 1 else 0)
  {
    assert (events + [e])[..|events|] == events;
  }

  function RecordsOf(events: seq<Event>, id: nat, i: nat): nat {
    SkipsOf(events, id, i) + HandlingsOf(events, id, i)
  }

  /** Whether message i of envelope `id` is among the first k of envelope `own`. */
  function Share(own: nat, k: nat, id: nat, i: nat): nat {
    if id == own && i < k then 1 else 0
  }

  /** Exactly n records of the message more than before. */
  predicate MoreRecords(a: seq<Event>, b: seq<Event>, id: nat, i: nat, n: nat) {
    RecordsOf(b, id, i) == RecordsOf(a, id, i) + n
  }

  lemma MoreRecordsChain(a: seq<Event>, b: seq<Event>, c: seq<Event>, id: nat, i: nat, m: nat, n: nat)
    requires MoreRecords(a, b, id, i, m) && MoreRecords(b, c, id, i, n)
    ensures MoreRecords(a, c, id, i, m + n)
  {
  }

  /** At most n skips of the message more than before. */
  predicate MoreSkips(a: seq<Event>, b: seq<Event>, id: nat, i: nat, n: nat) {
    SkipsOf(b, id, i) <= SkipsOf(a, id, i) + n
  }

  lemma MoreSkipsChain(a: seq<Event>, b: seq<Event>, c: seq<Event>, id: nat, i: nat, m: nat, n: nat)
    requires MoreSkips(a, b, id, i, m) && MoreSkips(b, c, id, i, n)
    ensures MoreSkips(a, c, id, i, m + n)
  {
  }

  /** One more record about message k of envelope `own`, and a skip only with the dedupe check. */
  lemma HandleCounts(ch: Channel, w: World, s: State, own: nat, attempt: nat, enforce: bool, k: nat, id: nat, i: nat)
    requires own < |s.envelopes| && k < |s.envelopes[own]|
    ensures var events := Handle(ch, w, s, own, attempt, enforce, k).events;
            var n := if id == own && i == k then 1 else 0;
            && MoreRecords(s.events, events, id, i, n)
            && MoreSkips(s.events, events, id, i, if enforce then n else 0)
  {
    var r := Handle(ch, w, s, own, attempt, enforce, k);
    assert r.events == s.events + [r.events[|s.events|]];
    CountsAppend(s.events, r.events[|s.events|], id, i);
  }

  lemma {:induction false} HandleFirstRecords(ch: Channel, w: World, s: State, own: nat, attempt: nat, enforce: bool,
                                              k: nat, id: nat, i: nat)
    requires own < |s.envelopes| && k <= |s.envelopes[own]|
    ensures MoreRecords(s.events, HandleFirst(ch, w, s, own, attempt, enforce, k).events, id, i,
                        Share(own, k, id, i))
  {
    if k > 0 {
      var p := HandleFirst(ch, w, s, own, attempt, enforce, k - 1);
      var r := HandleFirst(ch, w, s, own, attempt, enforce, k);
      assert r == Handle(ch, w, p, own, attempt, enforce, k - 1);
      HandleFirstRecords(ch, w, s, own, attempt, enforce, k - 1, id, i);
      HandleCounts(ch, w, p, own, attempt, enforce, k - 1, id, i);
      MoreRecordsChain(s.events, p.events, r.events, id, i, Share(own, k - 1, id, i),
                       if id == own && i == k - 1 then 1 else 0);
    }
  }

  lemma {:induction false} HandleFirstSkips(ch: Channel, w: World, s: State, own: nat, attempt: nat, enforce: bool,
                                            k: nat, id: nat, i: nat)
    requires own < |s.envelopes| && k <= |s.envelopes[own]|
    ensures MoreSkips(s.events, HandleFirst(ch, w, s, own, attempt, enforce, k).events, id, i,
                      if enforce then Share(own, k, id, i) else 0)
  {
    if k > 0 {
      var p := HandleFirst(ch, w, s, own, attempt, enforce, k - 1);
      var r := HandleFirst(ch, w, s, own, attempt, enforce, k);
      HandleFirstSkips(ch, w, s, own, attempt, enforce, k - 1, id, i);
      HandleCounts(ch, w, p, own, attempt, enforce, k - 1, id, i);
      MoreSkipsChain(s.events, p.events, r.events, id, i, if enforce then Share(own, k - 1, id, i) else 0,
                     if enforce && id == own && i == k - 1 then 1 else 0);
    }
  }

  /** One record of a message for each pass over its envelope, at most one of them a skip. */
  predicate Counted(s: State, id: nat, i: nat) {
    if id < |s.envelopes| then
      i < |s.envelopes[id]| ==>
        && RecordsOf(s.events, id, i) == PassesOf(s.passes, id)
        && SkipsOf(s.events, id, i) <= 1
    else
      RecordsOf(s.events, id, i) == PassesOf(s.passes, id) == 0
  }

  /** A pass keeps the counts: a retry any, a checked one those of a message not recorded before. */
  lemma PassKeepsCounted(ch: Channel, w: World, s: State, entry: Entry, enforce: bool, id: nat, i: nat)
    requires entry.envelopeId < |s.envelopes| == |s.status|
    requires id == entry.envelopeId && enforce ==> SkipsOf(s.events, id, i) == 0
    requires Counted(s, id, i)
    ensures Counted(Pass(ch, w, s, entry, enforce), id, i)
  {
    var own := entry.envelopeId;
    HandleFirstRecords(ch, w, Begin(s, own, entry), own, entry.attempt, enforce, |s.envelopes[own]|, id, i);
    HandleFirstSkips(ch, w, Begin(s, own, entry), own, entry.attempt, enforce, |s.envelopes[own]|, id, i);
    PassesOfAppend(s.passes, entry, id);
  }

  lemma PassesOfAppend(passes: seq<Entry>, e: Entry, id: nat)
    ensures PassesOf(passes + [e], id) == PassesOf(passes, id) + (if e.envelopeId == id then 1 else 0)
  {
    assert (passes + [e])[..|passes|] == passes;
  }

  lemma {:induction false} DrainKeepsCounted(ch: Channel, w: World, s: State, now: int, id: nat, i: nat)
    requires Sane(s) && Counted(s, id, i)
    ensures Counted(DrainAt(ch, w, s, now), id, i)
    decreases Weight(s.envelopes, s.queue, None)
  {
    if Due(s, now) {
      PopPassSane(ch, w, s);
      PopPassLowersWeight(ch, w, s, None);
      PassKeepsCounted(ch, w, s.(queue := s.queue[1..]), s.queue[0], false, id, i);
      DrainKeepsCounted(ch, w, PopPass(ch, w, s), now, id, i);
    }
  }

  lemma DeliverKeepsCounted(ch: Channel, w: World, s: State, messages: seq<Message>, enforce: bool, id: nat, i: nat)
    requires Sane(s) && Counted(s, id, i)
    ensures Counted(Apply(ch, w, s, Deliver(messages, enforce)), id, i)
  {
    PassKeepsCounted(ch, w, Admit(s, messages), Entry(0, |s.envelopes|, 0), enforce, id, i);
  }

  /** In every run a message is recorded once by every pass over its envelope, and skipped at most once:
      so a message that was not skipped, completed or not, is handled by every pass. */
  lemma {:induction false} HandledOncePerPass(ch: Channel, w: World, ops: seq<Op>, id: nat, i: nat)
    ensures Counted(Run(ch, w, ops), id, i)
  {
    if ops != [] {
      var s := Run(ch, w, ops[..|ops| - 1]);
      HandledOncePerPass(ch, w, ops[..|ops| - 1], id, i);
      match ops[|ops| - 1]
      case Deliver(messages, enforce) => DeliverKeepsCounted(ch, w, s, messages, enforce, id, i);
      case Drain => DrainKeepsCounted(ch, w, s.(tick := s.tick + 1), w.clock(s.tick), id, i);
    }
  }

  predicate Skipped(events: seq<Event>, id: nat, i: nat) {
    exists e :: e in events && e.envelopeId == id && e.index == i && e.verdict == DuplicateSkipped
  }

  predicate Handled(events: seq<Event>, id: nat, i: nat) {
    exists e :: e in events && e.envelopeId == id && e.index == i && e.verdict != DuplicateSkipped
  }

  lemma {:induction false} CountsShow(events: seq<Event>, id: nat, i: nat)
    ensures Skipped(events, id, i) <==> SkipsOf(events, id, i) > 0
    ensures Handled(events, id, i) <==> HandlingsOf(events, id, i) > 0
  {
    if events != [] {
      var init, last := events[..|events| - 1], events[|events| - 1];
      CountsShow(init, id, i);
      assert events == init + [last];
      assert last in events;
      assert forall e :: e in init ==> e in events;
    }
  }

  /** The dedupe check guards the first pass only. In every run, a message that was skipped as a duplicate
      has been handled all the same exactly when its envelope has been passed over at least twice. */
  lemma {:induction false} SkippedThenHandledIff(ch: Channel, w: World, ops: seq<Op>, id: nat, i: nat)
    requires var s := Run(ch, w, ops);
             id < |s.envelopes| && i < |s.envelopes[id]| && Skipped(s.events, id, i)
    ensures Handled(Run(ch, w, ops).events, id, i) <==> PassesOf(Run(ch, w, ops).passes, id) >= 2
  {
    HandledOncePerPass(ch, w, ops, id, i);
    CountsShow(Run(ch, w, ops).events, id, i);
  }

  // ---------------------------------------------------------------- when a skipped message is handled

  /** A message that is skipped as a duplicate in the first pass over its envelope is handled by the next
      late drain exactly when some message of that envelope is bound to be rescheduled in that first pass. */
  lemma {:induction false} LateDrainHandlesSkippedIff(ch: Channel, w: World, ops: seq<Op>, messages: seq<Message>,
                                                      i: nat)
    requires i < |messages| && !WillHandle(ch, messages, Run(ch, w, ops).claimed, true, i)
    requires LateDrain(w, Run(ch, w, ops + [Deliver(messages, true)]))
    ensures var s := Run(ch, w, ops);
            var s1 := Run(ch, w, ops + [Deliver(messages, true)]);
            var r := Apply(ch, w, s1, Drain);
            && s1.events <= r.events
            && (HandledSince(s1, r, |s.envelopes|, i) <==>
                Foreseen(ch, w, messages, s.claimed, true, s.tick, 0, Rescheduled))
  {
    var s := Run(ch, w, ops);
    var id := |s.envelopes|;
    RunStep(ch, w, ops, Deliver(messages, true));
    SkippedMessageIsHandledLaterIffQueued(ch, w, ops + [Deliver(messages, true)], id, i);
    var s0 := Begin(Admit(s, messages), id, Entry(0, id, 0));
    WaitsIffRescheduled(ch, w, s0, id, 0, true);
    SeenIffForeseen(ch, w, s0, id, 0, true, Rescheduled);
  }

  /** Message "a" is delivered and completes. It is delivered again beside "b", which fails recoverably: it
      is skipped, and then handled by the next drain. */
  lemma SkippedThenHandledRun(ch: Channel) returns (w: World, ops: seq<Op>)
    ensures var s := Run(ch, w, ops);
            Skipped(s.events, 1, 0) && Handled(s.events, 1, 0)
  {
    var a, b := Message(Some("a"), None), Message(Some("b"), None);
    w := World(t => if t == 1 then Raised(Failure(false, true, false)) else Replied, t => 10 * t * MICROSECONDS);
    RunStep(ch, w, [], Deliver([a], true));
    var first := [] + [Deliver([a], true)];
    var s1 := Run(ch, w, first);
    var key := IdempotencyKey(ch, a).value;
    assert IdempotencyKey(ch, b).value[|"message:"|..] == "b" && key[|"message:"|..] == "a";
    FirstDelivery(ch, w, a, s1);
    RunStep(ch, w, first, Deliver([a, b], true));
    var second := first + [Deliver([a, b], true)];
    var s2 := Run(ch, w, second);
    SecondDelivery(ch, w, a, b, s1, s2);
    RunStep(ch, w, second, Drain);
    ops := second + [Drain];
    SkippedMessageIsHandledLaterIffQueued(ch, w, second, 1, 0);
    var r := Run(ch, w, ops);
    assert r == Apply(ch, w, s2, Drain);
    var e :| e in r.events[|s2.events|..] && e.envelopeId == 1 && e.index == 0 && e.verdict != DuplicateSkipped;
    assert e in r.events;
    assert r.events[1] == s2.events[1] == Event(1, 0, 0, DuplicateSkipped);
    assert r.events[1] in r.events;
  }

  lemma FirstDelivery(ch: Channel, w: World, m: Message, r: State)
    requires IdempotencyKey(ch, m).Some? && w.outcome(0) == Replied
    requires r == Apply(ch, w, EmptyState, Deliver([m], true))
    ensures r.envelopes == [[m]] && |r.status| == 1 && r.queue == [] && r.claimed == {IdempotencyKey(ch, m).value}
    ensures r.events == [Event(0, 0, 0, Completed)] && r.tick == 1
  {
    var s0 := Begin(Admit(EmptyState, [m]), 0, Entry(0, 0, 0));
    assert HandleFirst(ch, w, s0, 0, 0, true, 0) == s0;
    assert HandleFirst(ch, w, s0, 0, 0, true, 1) == Handle(ch, w, s0, 0, 0, true, 0);
  }

  lemma SecondDelivery(ch: Channel, w: World, a: Message, b: Message, s: State, r: State)
    requires IdempotencyKey(ch, a).Some? && IdempotencyKey(ch, b).Some?
    requires IdempotencyKey(ch, a) != IdempotencyKey(ch, b)
    requires Sane(s) && |s.envelopes| == 1 && s.queue == [] && s.tick == 1 && |s.events| == 1
    requires s.claimed == {IdempotencyKey(ch, a).value}
    requires w.outcome(1) == Raised(Failure(false, true, false)) && w.clock(1) == 10 * MICROSECONDS
    requires w.clock(2) == 20 * MICROSECONDS && r == Apply(ch, w, s, Deliver([a, b], true))
    ensures |r.envelopes| == 2 && r.envelopes[1] == [a, b] && LateDrain(w, r) && Waiting(r.queue, 1)
    ensures |r.events| == 3 && r.events[1] == Event(1, 0, 0, DuplicateSkipped)
  {
    var s0 := Begin(Admit(s, [a, b]), 1, Entry(0, 1, 0));
    assert HandleFirst(ch, w, s0, 1, 0, true, 0) == s0;
    var p := HandleFirst(ch, w, s0, 1, 0, true, 1);
    assert p == Handle(ch, w, s0, 1, 0, true, 0) == s0.(events := s.events + [Event(1, 0, 0, DuplicateSkipped)]);
    var q := HandleFirst(ch, w, s0, 1, 0, true, 2);
    assert q == Handle(ch, w, p, 1, 0, true, 1);
    var retry := Entry(w.clock(1) + Backoff(1) * MICROSECONDS, 1, 1);
    assert Pow2(0) == 1 && Backoff(1) == 2;
    assert q.queue == [retry] && q.tick == 2 && retry in q.queue;
  }
}
