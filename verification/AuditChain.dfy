/** The audit log: one hash chain per channel, extended by batches whose channels may interleave. */
module AuditChain {
  import opened Options

  type Hash = string -> string

  /** A stored event. `body` is the canonical JSON text of its hashed fields; `createdAt` is the start
      of the transaction that inserted it, so all rows of a batch share it. */
  datatype Row = Row(channel: string, body: string, prev: Option<string>, hash: string, createdAt: int)

  datatype Event = Event(channel: string, body: string)

  /** Which stored row the query "newest by created_at" returns for a channel; the database is free
      to choose among rows that tie. */
  type Pick = map<string, nat>

  function Material(prev: Option<string>, body: string): string {
    (if prev.Some? then prev.value else "") + "|" + body
  }

  function HashRecord(h: Hash, prev: Option<string>, body: string): string {
    h(Material(prev, body))
  }

  // ---------------------------------------------------------------- chains

  function ChainOf(rows: seq<Row>, ch: string): seq<Row> {
    if rows == [] then []
    else
      var r := rows[|rows| - 1];
      var c := ChainOf(rows[..|rows| - 1], ch);
      if r.channel == ch then c + [r] else c
  }

  function Head(chain: seq<Row>): Option<string> {
    if chain == [] then None else Some(chain[|chain| - 1].hash)
  }

  /** An unbroken chain: every record names its predecessor's hash and carries its own. */
  predicate Chained(h: Hash, chain: seq<Row>) {
    chain == [] ||
    (var r := chain[|chain| - 1];
     && Chained(h, chain[..|chain| - 1])
     && r.prev == Head(chain[..|chain| - 1])
     && r.hash == HashRecord(h, r.prev, r.body))
  }

  // ---------------------------------------------------------------- one batch

  predicate Newest(rows: seq<Row>, ch: string, i: nat) {
    && i < |rows| && rows[i].channel == ch
    && (forall j :: 0 <= j < |rows| && rows[j].channel == ch ==> rows[j].createdAt <= rows[i].createdAt)
  }

  predicate ValidPick(rows: seq<Row>, pick: Pick) {
    && (forall ch :: ch in pick ==> Newest(rows, ch, pick[ch]))
    && (forall i :: 0 <= i < |rows| ==> rows[i].channel in pick)
  }

  function Lookup(rows: seq<Row>, pick: Pick, ch: string): Option<string>
  {
    if ch in pick && pick[ch] < |rows| then Some(rows[pick[ch]].hash) else None
  }

  /** The hash an event is chained to: that of the batch's own last record on the channel, or of the
      stored row the query returned. */
  function PrevFor(rows: seq<Row>, pick: Pick, built: seq<Row>, ch: string): Option<string>
  {
    var own := ChainOf(built, ch);
    if own != [] then Head(own) else Lookup(rows, pick, ch)
  }

  function NextRow(h: Hash, rows: seq<Row>, pick: Pick, built: seq<Row>, e: Event, now: int): Row
  {
    var prev := PrevFor(rows, pick, built, e.channel);
    Row(e.channel, e.body, prev, HashRecord(h, prev, e.body), now)
  }

  /** The records made of the first k events. */
  function BuildFirst(h: Hash, rows: seq<Row>, pick: Pick, events: seq<Event>, now: int, k: nat): (built: seq<Row>)
    requires k <= |events|
    ensures |built| == k
  {
    if k == 0 then []
    else
      var built := BuildFirst(h, rows, pick, events, now, k - 1);
      built + [NextRow(h, rows, pick, built, events[k - 1], now)]
  }

  function Build(h: Hash, rows: seq<Row>, pick: Pick, events: seq<Event>, now: int): (built: seq<Row>)
    ensures |built| == |events|
  {
    BuildFirst(h, rows, pick, events, now, |events|)
  }

  lemma {:induction false} BuildShape(h: Hash, rows: seq<Row>, pick: Pick, events: seq<Event>, now: int, k: nat)
    requires k <= |events|
    ensures var built := BuildFirst(h, rows, pick, events, now, k);
            forall i :: 0 <= i < k ==>
              built[i].channel == events[i].channel && built[i].body == events[i].body && built[i].createdAt == now
  {
    if k > 0 { BuildShape(h, rows, pick, events, now, k - 1); }
  }

  /** The table after a batch; a batch that raises at event `fault` (at its length: on commit) is
      rolled back. */
  function Persisted(h: Hash, rows: seq<Row>, pick: Pick, events: seq<Event>, now: int, fault: Option<nat>): seq<Row>
  {
    if fault.Some? && fault.value <= |events| then rows else rows + Build(h, rows, pick, events, now)
  }

  /** The dictionary knows, for each channel it has met, the hash to chain to next. */
  ghost predicate Tracks(previous: map<string, Option<string>>, rows: seq<Row>, pick: Pick, built: seq<Row>)
  {
    && (forall ch :: ch in previous ==> previous[ch] == PrevFor(rows, pick, built, ch))
    && (forall ch :: ch !in previous ==> ChainOf(built, ch) == [])
  }

  lemma TracksStep(h: Hash, previous: map<string, Option<string>>, rows: seq<Row>, pick: Pick,
                   built: seq<Row>, e: Event, now: int)
    requires Tracks(previous, rows, pick, built)
    ensures var r := NextRow(h, rows, pick, built, e, now);
            Tracks(previous[e.channel := Some(r.hash)], rows, pick, built + [r])
  {
    var r := NextRow(h, rows, pick, built, e, now);
    var next := previous[e.channel := Some(r.hash)];
    forall ch
      ensures ChainOf(built + [r], ch) == if ch == e.channel then ChainOf(built, ch) + [r] else ChainOf(built, ch)
    {
      ChainOfAppend(built, r, ch);
    }
    forall ch | ch in next ensures next[ch] == PrevFor(rows, pick, built + [r], ch) {
      if ch != e.channel { assert previous[ch] == PrevFor(rows, pick, built, ch); }
    }
  }

  lemma ChainOfAppend(rows: seq<Row>, r: Row, ch: string)
    ensures ChainOf(rows + [r], ch) == if r.channel == ch then ChainOf(rows, ch) + [r] else ChainOf(rows, ch)
  {
    assert (rows + [r])[..|rows|] == rows;
  }

  class AuditStore {
    var rows: seq<Row>

    /** Adds the events as one transaction, or none of them. */
    method PersistAuditEvents(h: Hash, events: seq<Event>, pick: Pick, now: int, fault: Option<nat>)
      returns (count: nat)
      modifies this
      ensures rows == Persisted(h, old(rows), pick, events, now, fault)
      ensures |rows| == |old(rows)| + count
    {
      if events == [] {
        return 0;
      }
      var ok, added := ChainEvents(h, events, pick, now, fault);
      if !ok || fault == Some(|events|) {
        return 0;
      }
      rows := rows + added;
      return |events|;
    }

    /** The source's loop, with its dictionary of the last hash per channel. */
    method ChainEvents(h: Hash, events: seq<Event>, pick: Pick, now: int, fault: Option<nat>)
      returns (ok: bool, added: seq<Row>)
      ensures ok <==> !(fault.Some? && fault.value < |events|)
      ensures ok ==> added == Build(h, rows, pick, events, now)
    {
      var previousByChannel: map<string, Option<string>> := map[];
      added := [];
      var i := 0;
      while i < |events|
        invariant i <= |events|
        invariant fault.Some? ==> fault.value >= i
        invariant added == BuildFirst(h, rows, pick, events, now, i)
        invariant Tracks(previousByChannel, rows, pick, added)
      {
        if fault == Some(i) {
          return false, added;
        }
        previousByChannel, added := ChainEvent(h, pick, events[i], now, previousByChannel, added);
        i := i + 1;
      }
      ok := true;
    }

    /** One turn of the loop: look the channel up on first meeting it, chain the event, remember its hash. */
    method ChainEvent(h: Hash, pick: Pick, e: Event, now: int, previous0: map<string, Option<string>>, built: seq<Row>)
      returns (previous: map<string, Option<string>>, added: seq<Row>)
      requires Tracks(previous0, rows, pick, built)
      ensures added == built + [NextRow(h, rows, pick, built, e, now)]
      ensures Tracks(previous, rows, pick, added)
    {
      previous := previous0;
      if e.channel !in previous {
        previous := previous[e.channel := Lookup(rows, pick, e.channel)];
      }
      var prev := previous[e.channel];
      var hash := HashRecord(h, prev, e.body);
      TracksStep(h, previous, rows, pick, built, e, now);
      previous := previous[e.channel := Some(hash)];
      added := built + [Row(e.channel, e.body, prev, hash, now)];
    }
  }

  // ---------------------------------------------------------------- appending keeps the chains

  lemma {:induction false} ChainOfConcat(a: seq<Row>, b: seq<Row>, ch: string)
    ensures ChainOf(a + b, ch) == ChainOf(a, ch) + ChainOf(b, ch)
  {
    if b == [] {
      assert a + b == a;
    } else {
      ChainOfConcat(a, b[..|b| - 1], ch);
      assert (a + b)[..|a + b| - 1] == a + b[..|b| - 1];
    }
  }

  lemma ChainedAppend(h: Hash, chain: seq<Row>, r: Row)
    ensures Chained(h, chain + [r]) <==>
            Chained(h, chain) && r.prev == Head(chain) && r.hash == HashRecord(h, r.prev, r.body)
  {
    assert (chain + [r])[..|chain|] == chain;
  }

  /** What one more record does to a channel's chain: on the channel, it keeps an unbroken chain whole
      exactly when the batch already has a record there or the chain's last hash was looked up. */
  lemma StepChain(h: Hash, rows: seq<Row>, pick: Pick, built: seq<Row>, e: Event, now: int, ch: string)
    ensures var c := ChainOf(rows + built, ch);
            var next := ChainOf(rows + (built + [NextRow(h, rows, pick, built, e, now)]), ch);
            && (e.channel != ch ==> next == c)
            && (e.channel == ch ==>
                  (Chained(h, next) <==>
                     && Chained(h, c)
                     && (ChainOf(built, ch) != [] || Lookup(rows, pick, ch) == Head(ChainOf(rows, ch)))))
  {
    var r := NextRow(h, rows, pick, built, e, now);
    var c, own := ChainOf(rows + built, ch), ChainOf(built, ch);
    assert rows + (built + [r]) == (rows + built) + [r];
    ChainOfAppend(rows + built, r, ch);
    ChainOfConcat(rows, built, ch);
    ChainedAppend(h, c, r);
    assert own != [] ==> c[|c| - 1] == own[|own| - 1];
    assert own == [] ==> c == ChainOf(rows, ch);
  }

  lemma {:induction false} BuildKeepsChain(h: Hash, rows: seq<Row>, pick: Pick, events: seq<Event>, now: int,
                                           ch: string, k: nat)
    requires k <= |events| && Chained(h, ChainOf(rows, ch))
    requires Lookup(rows, pick, ch) == Head(ChainOf(rows, ch))
    ensures Chained(h, ChainOf(rows + BuildFirst(h, rows, pick, events, now, k), ch))
  {
    if k == 0 {
      assert rows + [] == rows;
    } else {
      BuildKeepsChain(h, rows, pick, events, now, ch, k - 1);
      StepChain(h, rows, pick, BuildFirst(h, rows, pick, events, now, k - 1), events[k - 1], now, ch);
    }
  }

  /** Chaining the first event of a channel to another hash than the chain's last breaks the chain for good. */
  lemma {:induction false} BuildBreaksChain(h: Hash, rows: seq<Row>, pick: Pick, events: seq<Event>, now: int,
                                            ch: string, k: nat, at: nat)
    requires Lookup(rows, pick, ch) != Head(ChainOf(rows, ch))
    requires at < k <= |events| && events[at].channel == ch
    ensures !Chained(h, ChainOf(rows + BuildFirst(h, rows, pick, events, now, k), ch))
  {
    var built := BuildFirst(h, rows, pick, events, now, k - 1);
    StepChain(h, rows, pick, built, events[k - 1], now, ch);
    if at < k - 1 {
      BuildBreaksChain(h, rows, pick, events, now, ch, k - 1, at);
    } else if ChainOf(built, ch) != [] {
      var earlier := OnChannel(built, ch);
      BuildShape(h, rows, pick, events, now, k - 1);
      BuildBreaksChain(h, rows, pick, events, now, ch, k - 1, earlier);
    }
  }

  lemma {:induction false} OnChannel(rows: seq<Row>, ch: string) returns (i: nat)
    requires ChainOf(rows, ch) != []
    ensures i < |rows| && rows[i].channel == ch
  {
    i := |rows| - 1;
    if rows[i].channel != ch { i := OnChannel(rows[..i], ch); }
  }
}
