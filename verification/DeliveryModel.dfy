/** The announcement delivery worker with the local backend and one worker. */
module DeliveryModel {
  import opened Options
  import opened Text

  datatype Status = Pending | Processing | Sent | Failed | Skipped

  /** A rendered payload that is present and not empty. */
  datatype Rendered = Rendered(template: string, parameters: seq<string>)

  /** A delivery row with what its processing looks up: its announcement's text and its recipient's
      opt-in. `id` tells rows apart in the order in which they were created; the table is in key order. */
  datatype Row = Row(
    id: nat,
    channel: string,
    messageText: string,
    optIn: bool,
    rendered: Option<Rendered>,
    status: Status,
    attempts: nat,
    sentAt: Option<int>,
    startedAt: Option<int>)

  datatype Policy = SentTemplate | SkippedNoOptIn | FailedTemplateRequired

  /** How the lookup of the recipient and the call to the provider end. */
  datatype Provider = Accepted | TransientError | PermanentError

  datatype SendResult = Decided(policy: Policy, called: bool) | Raised(transient: bool)

  /** What the surroundings do at each tick, and the worker's setting. */
  datatype World = World(provider: nat -> Provider, clock: nat -> int, maxAttempts: nat)

  /** The table in key order; `accepted` records the rows of the messages that the provider took, and
      `created` how many rows there ever were. */
  datatype State = State(rows: seq<Row>, accepted: seq<nat>, tick: nat, created: nat)

  const EmptyState := State([], [], 0, 0)

  function ResolvePolicy(r: Row): Policy {
    if !r.optIn then SkippedNoOptIn
    else if r.rendered.None? then FailedTemplateRequired
    else if Blank(r.rendered.value.template) then FailedTemplateRequired
    else SentTemplate
  }

  predicate HasBlank(parameters: seq<string>) {
    parameters == [] || exists i :: 0 <= i < |parameters| && Blank(parameters[i])
  }

  function SendDelivery(r: Row, provider: Provider): SendResult {
    if r.status == Sent then Decided(SentTemplate, false)
    else if r.channel != "whatsapp" then Raised(false)
    else if r.messageText == "" then Raised(false)
    else
      var policy := ResolvePolicy(r);
      if policy != SentTemplate then Decided(policy, false)
      else if HasBlank(r.rendered.value.parameters) then Raised(false)
      else
        match provider
        case Accepted => Decided(SentTemplate, true)
        case TransientError => Raised(true)
        case PermanentError => Raised(false)
  }

  /** The row after one processing, which counts as one attempt however it ends. */
  function Settle(r: Row, result: SendResult, now: int, maxAttempts: nat): Row {
    var counted := r.(attempts := r.attempts + 1, startedAt := None);
    match result
    case Decided(SentTemplate, _) => counted.(status := Sent, sentAt := Some(now))
    case Decided(SkippedNoOptIn, _) => counted.(status := Skipped)
    case Decided(FailedTemplateRequired, _) => counted.(status := Failed)
    case Raised(transient) =>
      if transient && counted.attempts < maxAttempts then counted.(status := Pending) else counted.(status := Failed)
  }

  predicate Open(r: Row) {
    r.sentAt.None? && (r.status == Pending || r.status == Processing)
  }

  function Begin(r: Row, now: int): Row {
    r.(status := Processing, startedAt := Some(now))
  }

  function Process(w: World, s: State, i: nat): State
    requires i < |s.rows|
  {
    var r := s.rows[i];
    if r.sentAt.Some? || r.status == Sent then s
    else
      var begun := Begin(r, w.clock(s.tick));
      var result := SendDelivery(begun, w.provider(s.tick));
      s.(rows := s.rows[i := Settle(begun, result, w.clock(s.tick + 1), w.maxAttempts)],
         accepted := if result.Decided? && result.called then s.accepted + [r.id] else s.accepted,
         tick := s.tick + 2)
  }

  /** The first `limit` open rows from row `at` on. */
  function Claimed(rows: seq<Row>, at: nat, limit: nat): (idxs: seq<nat>)
    requires at <= |rows|
    ensures forall k :: 0 <= k < |idxs| ==> idxs[k] < |rows|
    decreases |rows| - at
  {
    if at == |rows| || limit == 0 then []
    else if Open(rows[at]) then [at] + Claimed(rows, at + 1, limit - 1)
    else Claimed(rows, at + 1, limit)
  }

  function MarkFirst(rows: seq<Row>, idxs: seq<nat>, now: int, k: nat): (r: seq<Row>)
    requires k <= |idxs| && forall j :: 0 <= j < |idxs| ==> idxs[j] < |rows|
    ensures |r| == |rows|
  {
    if k == 0 then rows
    else
      var r := MarkFirst(rows, idxs, now, k - 1);
      r[idxs[k - 1] := Begin(r[idxs[k - 1]], now)]
  }

  function ProcessFirst(w: World, s: State, idxs: seq<nat>, k: nat): (r: State)
    requires k <= |idxs| && forall j :: 0 <= j < |idxs| ==> idxs[j] < |s.rows|
    ensures |r.rows| == |s.rows|
  {
    if k == 0 then s else Process(w, ProcessFirst(w, s, idxs, k - 1), idxs[k - 1])
  }

  function ClaimBatch(w: World, s: State, idxs: seq<nat>): (r: State)
    requires forall j :: 0 <= j < |idxs| ==> idxs[j] < |s.rows|
    ensures |r.rows| == |s.rows|
  {
    s.(rows := MarkFirst(s.rows, idxs, w.clock(s.tick), |idxs|), tick := s.tick + 1)
  }

  /** One run of the worker: claim a batch, then process it row by row. */
  function RunPending(w: World, s: State, batch: nat): State {
    var idxs := Claimed(s.rows, 0, batch);
    ProcessFirst(w, ClaimBatch(w, s, idxs), idxs, |idxs|)
  }

  /** What creating an announcement fixes for one recipient. */
  datatype Draft = Draft(channel: string, messageText: string, optIn: bool, rendered: Option<Rendered>)

  function NewRow(id: nat, d: Draft): Row {
    Row(id, d.channel, d.messageText, d.optIn, d.rendered, Pending, 0, None, None)
  }

  function Inserted(rows: seq<Row>, p: nat, r: Row): seq<Row>
    requires p <= |rows|
  {
    rows[..p] + [r] + rows[p..]
  }

  /** A new row; its random key puts it anywhere in the key order. */
  function Announce(s: State, position: nat, d: Draft): State {
    var p := if position <= |s.rows| then position else |s.rows|;
    s.(rows := Inserted(s.rows, p, NewRow(s.created, d)), created := s.created + 1)
  }

  datatype Op = AnnounceOp(position: nat, draft: Draft) | WorkOp(batch: nat)

  function Apply(w: World, s: State, op: Op): State {
    match op
    case AnnounceOp(position, draft) => Announce(s, position, draft)
    case WorkOp(batch) => RunPending(w, s, batch)
  }

  function Run(w: World, ops: seq<Op>): State {
    if ops == [] then EmptyState else Apply(w, Run(w, ops[..|ops| - 1]), ops[|ops| - 1])
  }
}
