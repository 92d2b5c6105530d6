/** What the hash chains promise: the head fixes the history, and when appending keeps them whole. */
module AuditChainProperties {
  import opened Options
  import opened AuditChain

  // ---------------------------------------------------------------- the head determines the history

  /** A digest printed in hexadecimal: 64 characters, none of them a separator. */
  ghost predicate HexDigest(h: Hash) {
    forall s: string :: |h(s)| == 64 && forall c :: c in h(s) ==> c in "0123456789abcdef"
  }

  function Materials(chain: seq<Row>): set<string> {
    set r | r in chain :: Material(r.prev, r.body)
  }

  /** No two of the given texts collide. */
  predicate CollisionFree(h: Hash, texts: set<string>) {
    forall x, y :: x in texts && y in texts && h(x) == h(y) ==> x == y
  }

  lemma {:induction false} SplitAtFirstBar(p: string, x: string, q: string, y: string)
    requires p + "|" + x == q + "|" + y
    requires '|' !in p && '|' !in q
    ensures p == q && x == y
  {
    var l, r := p + "|" + x, q + "|" + y;
    if p != [] { assert p[0] in p && l[0] == p[0] && l[1..] == p[1..] + "|" + x; }
    if q != [] { assert q[0] in q && r[0] == q[0] && r[1..] == q[1..] + "|" + y; }
    if p != [] && q != [] {
      SplitAtFirstBar(p[1..], x, q[1..], y);
    } else {
      assert p == [] ==> l[0] == '|' && l[1..] == x;
      assert q == [] ==> r[0] == '|' && r[1..] == y;
    }
  }

  lemma ChainHeadIsDigest(h: Hash, chain: seq<Row>)
    requires HexDigest(h) && Chained(h, chain)
    ensures var p := Head(chain); p.Some? ==> |p.value| == 64 && '|' !in p.value
  {
    if chain != [] {
      var r := chain[|chain| - 1];
      assert |h(Material(r.prev, r.body))| == 64;
    }
  }

  /** Records with the same hash, each chained to a well-formed chain, agree in every hashed field. */
  lemma EqualHashesAgree(h: Hash, a: seq<Row>, ra: Row, b: seq<Row>, rb: Row)
    requires HexDigest(h) && Chained(h, a) && Chained(h, b)
    requires ra.prev == Head(a) && rb.prev == Head(b)
    requires Material(ra.prev, ra.body) == Material(rb.prev, rb.body)
    ensures ra.body == rb.body && ra.prev == rb.prev
  {
    ChainHeadIsDigest(h, a);
    ChainHeadIsDigest(h, b);
    SplitAtFirstBar(if ra.prev.Some? then ra.prev.value else "", ra.body,
                    if rb.prev.Some? then rb.prev.value else "", rb.body);
  }

  predicate SameRecord(a: Row, b: Row) {
    a.body == b.body && a.prev == b.prev && a.hash == b.hash
  }

  /** Two well-formed chains with the same last hash record the same history: as many records, with
      the same hashed fields one by one, unless the digest collides on their own records. */
  lemma {:induction false} HeadDeterminesHistory(h: Hash, a: seq<Row>, b: seq<Row>)
    requires HexDigest(h) && Chained(h, a) && Chained(h, b)
    requires CollisionFree(h, Materials(a) + Materials(b))
    requires Head(a) == Head(b)
    ensures |a| == |b| && forall i :: 0 <= i < |a| ==> SameRecord(a[i], b[i])
  {
    if a != [] {
      var ra, rb := a[|a| - 1], b[|b| - 1];
      var ia, ib := a[..|a| - 1], b[..|b| - 1];
      assert ra in a && rb in b;
      assert Material(ra.prev, ra.body) in Materials(a) && Material(rb.prev, rb.body) in Materials(b);
      EqualHashesAgree(h, ia, ra, ib, rb);
      MaterialsOfPrefix(a);
      MaterialsOfPrefix(b);
      HeadDeterminesHistory(h, ia, ib);
    }
  }

  lemma MaterialsOfPrefix(a: seq<Row>)
    requires a != []
    ensures Materials(a[..|a| - 1]) <= Materials(a)
  {
  }

  lemma {:induction false} ChainedPrefix(h: Hash, a: seq<Row>, b: seq<Row>)
    requires Chained(h, a + b)
    ensures Chained(h, a)
  {
    if b == [] {
      assert a + b == a;
    } else {
      assert (a + b)[..|a + b| - 1] == a + b[..|b| - 1];
      ChainedPrefix(h, a, b[..|b| - 1]);
    }
  }

  // ---------------------------------------------------------------- when appending keeps a chain

  /** Rows are inserted at times that never go back. */
  predicate Timely(rows: seq<Row>) {
    forall i, j :: 0 <= i < j < |rows| ==> rows[i].createdAt <= rows[j].createdAt
  }

  /** Only one row of the channel carries the channel's newest time stamp. */
  ghost predicate Untied(rows: seq<Row>, ch: string) {
    forall i: nat, j: nat :: Newest(rows, ch, i) && Newest(rows, ch, j) ==> i == j
  }

  lemma {:induction false} LastOf(rows: seq<Row>, ch: string) returns (last: nat)
    requires ChainOf(rows, ch) != []
    ensures last < |rows| && rows[last].channel == ch
    ensures Head(ChainOf(rows, ch)) == Some(rows[last].hash)
    ensures forall j :: last < j < |rows| ==> rows[j].channel != ch
    ensures Timely(rows) ==> Newest(rows, ch, last)
  {
    last := |rows| - 1;
    if rows[last].channel != ch { last := LastOf(rows[..last], ch); }
  }

  /** In a chain without collisions an earlier row of the channel has another hash than the last. */
  lemma EarlierHashDiffers(h: Hash, rows: seq<Row>, ch: string, k: nat, last: nat)
    requires HexDigest(h) && Chained(h, ChainOf(rows, ch)) && CollisionFree(h, Materials(ChainOf(rows, ch)))
    requires k < last < |rows| && rows[k].channel == ch && rows[last].channel == ch
    ensures Head(ChainOf(rows, ch)) != Some(rows[k].hash)
  {
    var front, back := rows[..k + 1], rows[k + 1..];
    assert rows == front + back;
    ChainOfConcat(front, back, ch);
    assert front[..|front| - 1] == rows[..k];
    if ChainOf(back, ch) == [] {
      assert back[last - k - 1].channel == ch;
      OnChannelInChain(back, ch, last - k - 1);
    }
    ChainedPrefix(h, ChainOf(front, ch), ChainOf(back, ch));
    assert Materials(ChainOf(front, ch)) <= Materials(ChainOf(rows, ch));
    if Head(ChainOf(rows, ch)) == Some(rows[k].hash) {
      assert Head(ChainOf(front, ch)) == Head(ChainOf(rows, ch));
      HeadDeterminesHistory(h, ChainOf(front, ch), ChainOf(rows, ch));
    }
  }

  lemma {:induction false} OnChannelInChain(rows: seq<Row>, ch: string, i: nat)
    requires i < |rows| && rows[i].channel == ch
    ensures ChainOf(rows, ch) != []
  {
    if i < |rows| - 1 { OnChannelInChain(rows[..|rows| - 1], ch, i); }
  }

  lemma UntiedPickIsLast(rows: seq<Row>, pick: Pick, ch: string)
    requires ValidPick(rows, pick) && Timely(rows) && Untied(rows, ch)
    ensures Lookup(rows, pick, ch) == Head(ChainOf(rows, ch))
  {
    if ChainOf(rows, ch) != [] {
      var last := LastOf(rows, ch);
      assert rows[last].channel in pick;
    } else if ch in pick {
      OnChannelInChain(rows, ch, pick[ch]);
    }
  }

  /** A pick in which every channel's last row is returned, except that `ch` gets row k. */
  lemma PickWith(rows: seq<Row>, ch: string, k: nat) returns (pick: Pick)
    requires Timely(rows) && Newest(rows, ch, k)
    ensures ValidPick(rows, pick) && ch in pick && pick[ch] == k
  {
    pick := map[ch := k];
    var i := 0;
    while i < |rows|
      invariant i <= |rows|
      invariant forall c :: c in pick ==> Newest(rows, c, pick[c])
      invariant forall j :: 0 <= j < i ==> rows[j].channel in pick
      invariant ch in pick && pick[ch] == k
    {
      if rows[i].channel !in pick {
        OnChannelInChain(rows, rows[i].channel, i);
        var last := LastOf(rows, rows[i].channel);
        pick := pick[rows[i].channel := last];
      }
      i := i + 1;
    }
  }

  /** Appending a batch that touches a channel keeps its chain unbroken, whichever newest row the
      database returns, exactly when the channel's newest time stamp is not shared by two rows. */
  lemma AppendKeepsChainIff(h: Hash, rows: seq<Row>, events: seq<Event>, now: int, ch: string, at: nat)
    requires HexDigest(h) && Timely(rows)
    requires Chained(h, ChainOf(rows, ch)) && CollisionFree(h, Materials(ChainOf(rows, ch)))
    requires at < |events| && events[at].channel == ch
    ensures (forall pick :: ValidPick(rows, pick) ==> Chained(h, ChainOf(rows + Build(h, rows, pick, events, now), ch)))
       <==> Untied(rows, ch)
  {
    if Untied(rows, ch) {
      forall pick | ValidPick(rows, pick)
        ensures Chained(h, ChainOf(rows + Build(h, rows, pick, events, now), ch))
      {
        UntiedPickIsLast(rows, pick, ch);
        BuildKeepsChain(h, rows, pick, events, now, ch, |events|);
      }
    } else {
      var i: nat, j: nat :| Newest(rows, ch, i) && Newest(rows, ch, j) && i != j;
      OnChannelInChain(rows, ch, i);
      var last := LastOf(rows, ch);
      var k := if i != last then i else j;
      EarlierHashDiffers(h, rows, ch, k, last);
      var pick := PickWith(rows, ch, k);
      BuildBreaksChain(h, rows, pick, events, now, ch, |events|, at);
    }
  }

  /** A batch with two events on a channel leaves the channel tied, so the next batch can fork it. */
  lemma TwoEventsInABatchTie(h: Hash, rows: seq<Row>, pick: Pick, events: seq<Event>, now: int, i: nat, j: nat)
    requires i < j < |events| && events[i].channel == events[j].channel
    requires forall r :: r in rows ==> r.createdAt <= now
    ensures !Untied(rows + Build(h, rows, pick, events, now), events[i].channel)
  {
    var r := rows + Build(h, rows, pick, events, now);
    BuildShape(h, rows, pick, events, now, |events|);
    assert Newest(r, events[i].channel, |rows| + i);
    assert Newest(r, events[i].channel, |rows| + j);
  }

  // ---------------------------------------------------------------- runs of batches

  datatype Batch = Batch(events: seq<Event>, pick: Pick, now: int, fault: Option<nat>)

  function RunBatches(h: Hash, batches: seq<Batch>): seq<Row> {
    if batches == [] then []
    else
      var b := batches[|batches| - 1];
      Persisted(h, RunBatches(h, batches[..|batches| - 1]), b.pick, b.events, b.now, b.fault)
  }

  /** The batch raises at one of its events, or on commit. */
  predicate Fails(b: Batch) {
    b.fault.Some? && b.fault.value <= |b.events|
  }

  /** The query returns the row inserted last on the channel. */
  predicate ReturnsLast(h: Hash, rows: seq<Row>, b: Batch, ch: string) {
    Lookup(rows, b.pick, ch) == Head(ChainOf(rows, ch))
  }

  /** Whatever the query returns, a batch only adds behind what a channel's chain holds, and a failed
      batch adds nothing. */
  lemma BatchExtendsChains(h: Hash, rows: seq<Row>, b: Batch, ch: string)
    ensures var r := Persisted(h, rows, b.pick, b.events, b.now, b.fault);
            ChainOf(rows, ch) <= ChainOf(r, ch) && (Fails(b) ==> r == rows)
  {
    ChainOfConcat(rows, Build(h, rows, b.pick, b.events, b.now), ch);
  }

  /** As long as "newest by created_at" means "inserted last", any sequence of batches, with channels
      interleaved in any way and some batches failing, leaves the channel's events as one unbroken chain. */
  lemma {:induction false} BatchesKeepChains(h: Hash, batches: seq<Batch>, ch: string)
    requires forall k :: 0 <= k < |batches| ==> ReturnsLast(h, RunBatches(h, batches[..k]), batches[k], ch)
    ensures Chained(h, ChainOf(RunBatches(h, batches), ch))
  {
    if batches != [] {
      var n := |batches| - 1;
      var b := batches[n];
      forall k | 0 <= k < n ensures ReturnsLast(h, RunBatches(h, batches[..n][..k]), batches[..n][k], ch) {
        assert batches[..n][..k] == batches[..k];
      }
      BatchesKeepChains(h, batches[..n], ch);
      BuildKeepsChain(h, RunBatches(h, batches[..n]), b.pick, b.events, b.now, ch, |b.events|);
    }
  }

  /** Batches at strictly later times that hold no channel twice never tie, so for them the database's
      freedom to choose among ties is harmless. */
  predicate Sparse(batches: seq<Batch>) {
    && (forall k, l :: 0 <= k < l < |batches| ==> batches[k].now < batches[l].now)
    && (forall k, i, j :: 0 <= k < |batches| && 0 <= i < j < |batches[k].events| ==>
          batches[k].events[i].channel != batches[k].events[j].channel)
  }

  ghost predicate PicksAreValid(h: Hash, batches: seq<Batch>) {
    forall k :: 0 <= k < |batches| ==> ValidPick(RunBatches(h, batches[..k]), batches[k].pick)
  }

  /** Rows of a batch at a later time, no two on one channel, tie with nothing. */
  lemma LaterRowsUntied(rows: seq<Row>, built: seq<Row>, now: int, ch: string)
    requires Timely(rows) && Untied(rows, ch)
    requires forall i :: 0 <= i < |rows| ==> rows[i].createdAt < now
    requires forall i :: 0 <= i < |built| ==> built[i].createdAt == now
    requires forall i, j :: 0 <= i < j < |built| ==> built[i].channel != built[j].channel
    ensures Timely(rows + built) && Untied(rows + built, ch)
  {
    var all := rows + built;
    forall i: nat, j: nat | Newest(all, ch, i) && Newest(all, ch, j) ensures i == j {
      if i < |rows| && j < |rows| {
        assert forall k :: 0 <= k < |rows| ==> all[k] == rows[k];
        assert Newest(rows, ch, i) && Newest(rows, ch, j);
      }
    }
  }

  lemma SparseInit(batches: seq<Batch>)
    requires Sparse(batches) && batches != []
    ensures var n := |batches| - 1; Sparse(batches[..n]) && (n > 0 ==> batches[n - 1].now < batches[n].now)
  {
  }

  lemma {:induction false} SparseBatchesStayUntied(h: Hash, batches: seq<Batch>, ch: string)
    requires Sparse(batches)
    ensures var rows := RunBatches(h, batches);
            && Timely(rows) && Untied(rows, ch)
            && (forall i :: 0 <= i < |rows| ==> batches != [] && rows[i].createdAt <= batches[|batches| - 1].now)
  {
    if batches != [] {
      var n := |batches| - 1;
      var b := batches[n];
      SparseInit(batches);
      SparseBatchesStayUntied(h, batches[..n], ch);
      var rows := RunBatches(h, batches[..n]);
      BuildShape(h, rows, b.pick, b.events, b.now, |b.events|);
      LaterRowsUntied(rows, Build(h, rows, b.pick, b.events, b.now), b.now, ch);
    }
  }

  lemma {:induction false} SparseBatchesKeepChains(h: Hash, batches: seq<Batch>, ch: string)
    requires Sparse(batches) && PicksAreValid(h, batches)
    ensures Chained(h, ChainOf(RunBatches(h, batches), ch))
  {
    forall k | 0 <= k < |batches| ensures ReturnsLast(h, RunBatches(h, batches[..k]), batches[k], ch) {
      SparseBatchesStayUntied(h, batches[..k], ch);
      UntiedPickIsLast(RunBatches(h, batches[..k]), batches[k].pick, ch);
    }
    BatchesKeepChains(h, batches, ch);
  }
}
