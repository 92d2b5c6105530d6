/** The sliding-window limiter in front of the WhatsApp webhook: a sorted set per bucket that evicts
    old members and expires as a whole, against a plain count over all calls ever made. */
module RateLimit {
  import opened Options
  import opened Text

  const MICROSECONDS: nat := 1_000_000
  const SUBJECT_LENGTH: nat := 120

  /** A sorted set: the scores of its members (which are unique) and the time at which it expires. */
  datatype Bucket = Bucket(scores: seq<nat>, expiresAt: nat)

  /** One call ever made, with its outcome. */
  datatype Call = Call(bucket: string, at: nat, admitted: bool)

  /** What of a client or sender goes into the name of its bucket. */
  function Subject(s: string): string {
    if |s| > SUBJECT_LENGTH then s[..SUBJECT_LENGTH] else s
  }

  const KEY_PREFIX := "whatsapp:webhook:rate_limit"
  const IP := "ip"
  const SENDER := "sender"

  /** The Redis key of a bucket. */
  function RateLimitKey(bucketType: string, subject: string): string {
    KEY_PREFIX + ":" + bucketType + ":" + Subject(subject)
  }

  /** A bucket type without a colon ends at the first colon. */
  lemma FirstColon(t: string, x: string)
    requires ':' !in t
    ensures var s := t + ":" + x; s[|t|] == ':' && forall i :: 0 <= i < |t| ==> s[i] != ':'
  {
    var s := t + ":" + x;
    forall i | 0 <= i < |t| ensures s[i] != ':' {
      assert s[i] == t[i] && t[i] in t;
    }
  }

  /** Two limits never share a bucket, whatever the client and the sender are called; and within one limit
      two subjects share one exactly when they agree in their first 120 characters. */
  lemma BucketsCoincideIff(t: string, a: string, u: string, b: string)
    requires ':' !in t && ':' !in u
    ensures RateLimitKey(t, a) == RateLimitKey(u, b) <==>
            t == u && (if |a| > 120 then a[..120] else a) == (if |b| > 120 then b[..120] else b)
  {
    var x, y := t + ":" + Subject(a), u + ":" + Subject(b);
    var head := KEY_PREFIX + ":";
    assert RateLimitKey(t, a) == head + x && RateLimitKey(u, b) == head + y;
    if RateLimitKey(t, a) == RateLimitKey(u, b) {
      assert x == (head + x)[|head|..] && y == (head + y)[|head|..];
      FirstColon(t, Subject(a));
      FirstColon(u, Subject(b));
      assert |t| == |u|;
      assert t == x[..|t|] && u == y[..|t|];
      assert Subject(a) == x[|t| + 1..] && Subject(b) == y[|t| + 1..];
    }
  }

  /** ZREMRANGEBYSCORE key 0 lo: what stays. */
  function Evict(scores: seq<nat>, lo: int): seq<nat> {
    if scores == [] then []
    else
      var x := scores[|scores| - 1];
      var kept := Evict(scores[..|scores| - 1], lo);
      if x > lo then kept + [x] else kept
  }

  /** The times of the calls to a bucket after `lo`. */
  function Recent(history: seq<Call>, bucket: string, lo: int): seq<nat> {
    if history == [] then []
    else
      var c := history[|history| - 1];
      var before := Recent(history[..|history| - 1], bucket, lo);
      if c.bucket == bucket && c.at > lo then before + [c.at] else before
  }

  function Admitted(history: seq<Call>, bucket: string, lo: int, hi: int): nat {
    if history == [] then 0
    else
      var c := history[|history| - 1];
      Admitted(history[..|history| - 1], bucket, lo, hi) +
      (if c.bucket == bucket && c.admitted && lo < c.at <= hi then 1 else 0)
  }

  predicate Chronological(history: seq<Call>) {
    forall i, j :: 0 <= i < j < |history| ==> history[i].at <= history[j].at
  }

  /** Call i was admitted exactly when it found at most `limit` calls, refused ones and itself
      included, in the window that it closed. */
  predicate DecidedAt(history: seq<Call>, i: nat, window: nat, limit: nat)
    requires i < |history|
  {
    var c := history[i];
    c.admitted == (|Recent(history[..i + 1], c.bucket, c.at - window)| <= limit)
  }

  predicate Decided(history: seq<Call>, window: nat, limit: nat) {
    forall i :: 0 <= i < |history| ==> DecidedAt(history, i, window, limit)
  }

  lemma RecentAppend(history: seq<Call>, c: Call, bucket: string, lo: int)
    ensures Recent(history + [c], bucket, lo) ==
            if c.bucket == bucket && c.at > lo then Recent(history, bucket, lo) + [c.at]
            else Recent(history, bucket, lo)
  {
    assert (history + [c])[..|history|] == history;
  }

  lemma EvictAppend(scores: seq<nat>, x: nat, lo: int)
    ensures Evict(scores + [x], lo) == if x > lo then Evict(scores, lo) + [x] else Evict(scores, lo)
  {
    assert (scores + [x])[..|scores|] == scores;
  }

  lemma {:induction false} EvictRecent(history: seq<Call>, bucket: string, lo: int, hi: int)
    requires lo <= hi
    ensures Evict(Recent(history, bucket, lo), hi) == Recent(history, bucket, hi)
  {
    if history != [] {
      var c := history[|history| - 1];
      EvictRecent(history[..|history| - 1], bucket, lo, hi);
      EvictAppend(Recent(history[..|history| - 1], bucket, lo), c.at, hi);
    }
  }

  lemma {:induction false} RecentEmpty(history: seq<Call>, bucket: string, lo: int)
    requires forall c :: c in history && c.bucket == bucket ==> c.at <= lo
    ensures Recent(history, bucket, lo) == []
  {
    if history != [] { RecentEmpty(history[..|history| - 1], bucket, lo); }
  }

  lemma {:induction false} AdmittedAreRecent(history: seq<Call>, bucket: string, lo: int, hi: int, low: int)
    requires low <= lo
    ensures Admitted(history, bucket, lo, hi) <= |Recent(history, bucket, low)|
  {
    if history != [] { AdmittedAreRecent(history[..|history| - 1], bucket, lo, hi, low); }
  }

  /** Any window of length `window` holds at most `limit` admitted calls of a bucket, although the
      limiter never looks at which calls were admitted. */
  lemma {:induction false} AdmissionBound(history: seq<Call>, window: nat, limit: nat, bucket: string, t: int)
    requires Chronological(history) && Decided(history, window, limit)
    ensures Admitted(history, bucket, t - window, t) <= limit
  {
    if history != [] {
      var n := |history| - 1;
      var c := history[n];
      if c.bucket == bucket && c.admitted && t - window < c.at <= t {
        assert DecidedAt(history, n, window, limit) && history[..n + 1] == history;
        AdmittedAreRecent(history, bucket, t - window, t, c.at - window);
      } else {
        forall i | 0 <= i < n ensures DecidedAt(history[..n], i, window, limit) {
          assert DecidedAt(history, i, window, limit) && history[..n][..i + 1] == history[..i + 1];
        }
        AdmissionBound(history[..n], window, limit, bucket, t);
      }
    }
  }

  /** The stored set holds exactly the calls of the window that the bucket's last call closed, and
      lives for one window after that call. */
  predicate Faithful(history: seq<Call>, bucket: string, stored: Bucket, window: nat) {
    && stored.scores == Recent(history, bucket, stored.expiresAt - 2 * window)
    && (forall c :: c in history && c.bucket == bucket ==> c.at + window <= stored.expiresAt)
    && history != [] && stored.expiresAt <= history[|history| - 1].at + window
  }

  /** Reading the stored set, expired or not, gives the plain window. */
  lemma LiveScores(history: seq<Call>, bucket: string, stored: Bucket, now: nat, window: nat)
    requires Faithful(history, bucket, stored, window)
    requires forall x :: x in history ==> x.at <= now
    ensures (if now < stored.expiresAt then Evict(stored.scores, now - window) else [])
         == Recent(history, bucket, now - window)
  {
    if now < stored.expiresAt {
      assert history[|history| - 1] in history;
      EvictRecent(history, bucket, stored.expiresAt - 2 * window, now - window);
    } else {
      RecentEmpty(history, bucket, now - window);
    }
  }

  /** What the pipeline leaves in the bucket it was run for. */
  lemma FaithfulAfterCall(history: seq<Call>, bucket: string, c: Call, scores: seq<nat>, window: nat)
    requires c.bucket == bucket && window >= 1
    requires scores == Recent(history, bucket, c.at - window)
    requires forall x :: x in history ==> x.at <= c.at
    ensures Recent(history + [c], bucket, c.at - window) == scores + [c.at]
    ensures Faithful(history + [c], bucket, Bucket(scores + [c.at], c.at + window), window)
  {
    var r, stored := history + [c], Bucket(scores + [c.at], c.at + window);
    RecentAppend(history, c, bucket, c.at - window);
    assert stored.expiresAt - 2 * window == c.at - window;
    forall x | x in r && x.bucket == bucket ensures x.at + window <= stored.expiresAt {
      assert x in history || x == c;
    }
    assert r[|r| - 1] == c;
  }

  lemma FaithfulElsewhere(history: seq<Call>, bucket: string, stored: Bucket, c: Call, window: nat)
    requires c.bucket != bucket && Faithful(history, bucket, stored, window)
    requires forall x :: x in history ==> x.at <= c.at
    ensures Faithful(history + [c], bucket, stored, window)
  {
    assert history[|history| - 1] in history;
    RecentAppend(history, c, bucket, stored.expiresAt - 2 * window);
  }

  predicate AllFaithful(buckets: map<string, Bucket>, history: seq<Call>, window: nat) {
    && (forall c :: c in history ==> c.bucket in buckets)
    && (forall b {:trigger Faithful(history, b, buckets[b], window)} :: b in buckets ==>
          Faithful(history, b, buckets[b], window))
  }

  lemma AllFaithfulAfterCall(buckets: map<string, Bucket>, history: seq<Call>, c: Call, scores: seq<nat>, window: nat)
    requires AllFaithful(buckets, history, window) && window >= 1
    requires forall x :: x in history ==> x.at <= c.at
    requires scores == Recent(history, c.bucket, c.at - window)
    ensures AllFaithful(buckets[c.bucket := Bucket(scores + [c.at], c.at + window)], history + [c], window)
  {
    var r := buckets[c.bucket := Bucket(scores + [c.at], c.at + window)];
    FaithfulAfterCall(history, c.bucket, c, scores, window);
    forall b | b in r ensures Faithful(history + [c], b, r[b], window) {
      if b != c.bucket { FaithfulElsewhere(history, b, buckets[b], c, window); }
    }
    forall x | x in history + [c] ensures x.bucket in r {
      assert x in history || x == c;
    }
  }

  lemma DecidedAfterCall(history: seq<Call>, c: Call, window: nat, limit: nat)
    requires Chronological(history) && Decided(history, window, limit)
    requires forall x :: x in history ==> x.at <= c.at
    requires c.admitted == (|Recent(history + [c], c.bucket, c.at - window)| <= limit)
    ensures Chronological(history + [c]) && Decided(history + [c], window, limit)
  {
    var r := history + [c];
    forall i | 0 <= i < |r| ensures DecidedAt(r, i, window, limit) {
      if i < |history| {
        assert DecidedAt(history, i, window, limit) && r[..i + 1] == history[..i + 1];
      } else {
        assert r[..i + 1] == r;
      }
    }
  }

  predicate Consistent(buckets: map<string, Bucket>, history: seq<Call>, window: nat, limit: nat) {
    Chronological(history) && Decided(history, window, limit) && AllFaithful(buckets, history, window)
  }

  lemma CallKeepsConsistent(buckets: map<string, Bucket>, history: seq<Call>, c: Call, scores: seq<nat>, window: nat,
                            limit: nat)
    requires Consistent(buckets, history, window, limit) && window >= 1
    requires forall x :: x in history ==> x.at <= c.at
    requires scores == Recent(history, c.bucket, c.at - window)
    requires c.admitted == (|scores| + 1 <= limit)
    ensures Recent(history + [c], c.bucket, c.at - window) == scores + [c.at]
    ensures Consistent(buckets[c.bucket := Bucket(scores + [c.at], c.at + window)], history + [c], window, limit)
  {
    FaithfulAfterCall(history, c.bucket, c, scores, window);
    DecidedAfterCall(history, c, window, limit);
    AllFaithfulAfterCall(buckets, history, c, scores, window);
  }

  /** One limit with the buckets under its type of key. */
  class Limiter {
    const bucketType: string
    const windowSeconds: nat
    const limit: nat
    var buckets: map<string, Bucket>
    ghost var history: seq<Call>

    function Window(): nat {
      windowSeconds * MICROSECONDS
    }

    ghost predicate Valid()
      reads this
    {
      && windowSeconds >= 1 && limit >= 1
      && Consistent(buckets, history, Window(), limit)
    }

    constructor (kind: string, windowSetting: int, limitSetting: int)
      ensures Valid() && history == [] && bucketType == kind
      ensures windowSeconds == if windowSetting < 1 then 1 else windowSetting
      ensures limit == if limitSetting < 1 then 1 else limitSetting
    {
      bucketType := kind;
      windowSeconds := if windowSetting < 1 then 1 else windowSetting;
      limit := if limitSetting < 1 then 1 else limitSetting;
      buckets, history := map[], [];
    }

    /** The pipeline: evict, add, count, set the expiry. The count equals the number of calls ever made
        to the bucket in (now - window, now], whether or not the stored set had expired meanwhile. */
    method IncrementSlidingWindow(bucket: string, now: nat) returns (count: nat)
      requires Valid()
      requires forall c :: c in history ==> c.at <= now
      modifies this
      ensures Valid()
      ensures history == old(history) + [Call(bucket, now, count <= limit)]
      ensures count == |Recent(history, bucket, now - Window())|
    {
      var scores := StoredScores(bucket, now);
      count := |scores| + 1;
      ghost var c := Call(bucket, now, count <= limit);
      CallKeepsConsistent(buckets, history, c, scores, Window(), limit);
      buckets := buckets[bucket := Bucket(scores + [now], now + Window())];
      history := history + [c];
    }

    /** What the set holds after the eviction, a set past its expiry counting as absent. */
    method StoredScores(bucket: string, now: nat) returns (scores: seq<nat>)
      requires Valid()
      requires forall c :: c in history ==> c.at <= now
      ensures scores == Recent(history, bucket, now - Window())
    {
      scores := [];
      if bucket in buckets {
        LiveScores(history, bucket, buckets[bucket], now, Window());
        if now < buckets[bucket].expiresAt {
          scores := Evict(buckets[bucket].scores, now - Window());
        }
      } else {
        RecentEmpty(history, bucket, now - Window());
      }
    }

    /** Counts a call of the subject and tells whether it is within the limit. */
    method Enforce(subject: string, now: nat) returns (admitted: bool)
      requires Valid()
      requires forall c :: c in history ==> c.at <= now
      modifies this
      ensures Valid()
      ensures history == old(history) + [Call(RateLimitKey(bucketType, subject), now, admitted)]
      ensures admitted ==
              (|Recent(history, RateLimitKey(bucketType, subject), now - windowSeconds * 1_000_000)| <= limit)
    {
      var count := IncrementSlidingWindow(RateLimitKey(bucketType, subject), now);
      admitted := count <= limit;
    }
  }

  /** The two limits of the webhook, each with its own settings. Their buckets lie in one Redis, but no key
      of one is a key of the other (`BucketsCoincideIff`), so each has a store of its own here. */
  class WebhookLimits {
    const ip: Limiter
    const sender: Limiter

    ghost predicate Valid()
      reads ip, sender
    {
      ip != sender && ip.bucketType == IP && sender.bucketType == SENDER && ip.Valid() && sender.Valid()
    }

    constructor (rateWindow: int, maxRequests: int, spamWindow: int, maxMessages: int)
      ensures Valid() && fresh(ip) && fresh(sender)
      ensures ip.history == [] && sender.history == []
      ensures ip.windowSeconds == (if rateWindow < 1 then 1 else rateWindow)
      ensures ip.limit == (if maxRequests < 1 then 1 else maxRequests)
      ensures sender.windowSeconds == (if spamWindow < 1 then 1 else spamWindow)
      ensures sender.limit == (if maxMessages < 1 then 1 else maxMessages)
    {
      ip := new Limiter(IP, rateWindow, maxRequests);
      sender := new Limiter(SENDER, spamWindow, maxMessages);
    }

    /** The limit on webhook calls from one client; the senders' counts stay as they are. */
    method EnforceWebhookRateLimit(clientKey: string, now: nat) returns (admitted: bool)
      requires Valid()
      requires forall c :: c in ip.history ==> c.at <= now
      modifies ip
      ensures Valid()
      ensures var key := RateLimitKey(IP, clientKey);
              && ip.history == old(ip.history) + [Call(key, now, admitted)]
              && admitted == (|Recent(ip.history, key, now - ip.windowSeconds * 1_000_000)| <= ip.limit)
    {
      admitted := ip.Enforce(clientKey, now);
    }

    /** The limit on messages from one sender; a blank sender is let through uncounted. */
    method EnforceSenderSpamLimit(senderId: Option<string>, now: nat) returns (admitted: bool)
      requires Valid()
      requires forall c :: c in sender.history ==> c.at <= now
      modifies sender
      ensures Valid()
      ensures var subject := Strip(if senderId.Some? then senderId.value else "");
              var key := RateLimitKey(SENDER, subject);
              if subject == "" then admitted && sender.history == old(sender.history)
              else
                && sender.history == old(sender.history) + [Call(key, now, admitted)]
                && admitted == (|Recent(sender.history, key, now - sender.windowSeconds * 1_000_000)| <= sender.limit)
    {
      var subject := Strip(if senderId.Some? then senderId.value else "");
      if subject == "" {
        return true;
      }
      admitted := sender.Enforce(subject, now);
    }
  }
}
