/** How a delivery ends: what one processing does to a row, told from the row and the provider's answer
    alone, and over every run the fate of a row from the answers it was given. */
module DeliveryAnswers {
  import opened Options
  import opened Text
  import opened DeliveryModel
  import opened DeliveryProperties

  /** Nothing but the provider stands between the row and its recipient. */
  predicate Deliverable(r: Row) {
    && r.channel == "whatsapp" && r.messageText != "" && r.optIn && r.rendered.Some?
    && Strip(r.rendered.value.template) != "" && r.rendered.value.parameters != []
    && (forall i :: 0 <= i < |r.rendered.value.parameters| ==> Strip(r.rendered.value.parameters[i]) != "")
  }

  /** What the announcement fixed for the row. */
  predicate SameMessage(r: Row, r': Row) {
    && r'.id == r.id && r'.channel == r.channel && r'.messageText == r.messageText
    && r'.optIn == r.optIn && r'.rendered == r.rendered
  }

  /** How one processing of an unfinished row ends. It is skipped for want of an opt-in, sent when the
      provider accepts it, put back when the provider fails for a while and attempts are left, and failed
      in all other cases; each way it costs one attempt. */
  lemma ProcessDecides(w: World, s: State, i: nat)
    requires i < |s.rows| && s.rows[i].sentAt.None?
    requires s.rows[i].status == Pending || s.rows[i].status == Processing
    ensures var r, r' := s.rows[i], Process(w, s, i).rows[i];
            var answer := w.provider(s.tick);
            && SameMessage(r, r') && r'.attempts == r.attempts + 1 && r'.startedAt.None?
            && (r'.status == Skipped <==> r.channel == "whatsapp" && r.messageText != "" && !r.optIn)
            && (r'.status == Sent <==> Deliverable(r) && answer == Accepted)
            && (r'.status == Pending <==>
                  Deliverable(r) && answer == TransientError && r.attempts + 1 < w.maxAttempts)
            && (r'.status == Failed <==>
                  || r.channel != "whatsapp" || r.messageText == "" || (r.optIn && !Deliverable(r))
                  || (r.optIn && answer == PermanentError)
                  || (r.optIn && answer == TransientError && r.attempts + 1 >= w.maxAttempts))
            && r'.sentAt == (if r'.status == Sent then Some(w.clock(s.tick + 1)) else None)
  {
  }

  /** What a claim does: a claimed row is processing from now on, any other row is as it was. */
  lemma {:induction false} ClaimMarks(rows: seq<Row>, idxs: seq<nat>, now: int, k: nat, i: nat)
    requires k <= |idxs| && forall j :: 0 <= j < |idxs| ==> idxs[j] < |rows|
    requires i < |rows|
    ensures MarkFirst(rows, idxs, now, k)[i] ==
            if i in idxs[..k] then rows[i].(status := Processing, startedAt := Some(now)) else rows[i]
  {
    if k > 0 {
      ClaimMarks(rows, idxs, now, k - 1, i);
      assert idxs[..k] == idxs[..k - 1] + [idxs[k - 1]];
    }
  }

  /** An announced row is new, and deliverable exactly when its draft leaves nothing to be desired. */
  lemma AnnouncedIsDeliverableIff(s: State, position: nat, d: Draft) returns (p: nat)
    ensures var r := Announce(s, position, d);
            && p < |r.rows| == |s.rows| + 1 && (position <= |s.rows| ==> p == position)
            && r.rows[..p] == s.rows[..p] && r.rows[p + 1..] == s.rows[p..]
            && r.rows[p].id == s.created && r.rows[p].status == Pending && r.rows[p].attempts == 0
            && r.rows[p].sentAt.None?
            && (Deliverable(r.rows[p]) <==>
                  && d.channel == "whatsapp" && d.messageText != "" && d.optIn && d.rendered.Some?
                  && Strip(d.rendered.value.template) != "" && d.rendered.value.parameters != []
                  && forall i :: 0 <= i < |d.rendered.value.parameters| ==>
                       Strip(d.rendered.value.parameters[i]) != "")
  {
    p := if position <= |s.rows| then position else |s.rows|;
  }

  // ---------------------------------------------------------------- the answers given to a row

  /** The provider's answers to a row during the first k processings of a run that starts in s. The claim
      takes one tick and each processing two. */
  function AnswersInRun(w: World, s: State, idxs: seq<nat>, k: nat, id: nat): seq<Provider>
    requires k <= |idxs| && forall j :: 0 <= j < |idxs| ==> idxs[j] < |s.rows|
  {
    if k == 0 then []
    else
      AnswersInRun(w, s, idxs, k - 1, id) +
      (if s.rows[idxs[k - 1]].id == id then [w.provider(s.tick + 1 + 2 * (k - 1))] else [])
  }

  function Answers(w: World, ops: seq<Op>, id: nat): seq<Provider> {
    if ops == [] then []
    else
      var init, op := ops[..|ops| - 1], ops[|ops| - 1];
      var s := Run(w, init);
      Answers(w, init, id) +
      if op.WorkOp?
      then
        var idxs := Claimed(s.rows, 0, op.batch);
        AnswersInRun(w, s, idxs, |idxs|, id)
      else []
  }

  /** A row's state follows from the answers: all but the last are transient; the last one accepts it, is
      permanent, is the last transient one allowed, or leaves attempts over. */
  predicate Fits(r: Row, answers: seq<Provider>, max: nat) {
    && r.attempts == |answers|
    && (forall i :: 0 <= i < |answers| - 1 ==> answers[i] == TransientError)
    && match r.status
       case Sent => answers != [] && answers[|answers| - 1] == Accepted
       case Failed =>
         && answers != []
         && (|| answers[|answers| - 1] == PermanentError
             || (answers[|answers| - 1] == TransientError && |answers| >= max))
       case Skipped => false
       case _ => |answers| < max && (answers != [] ==> answers[|answers| - 1] == TransientError)
  }

  lemma NextAnswerFits(w: World, s: State, i: nat, answers: seq<Provider>)
    requires i < |s.rows| && Open(s.rows[i]) && Deliverable(s.rows[i]) && Fits(s.rows[i], answers, w.maxAttempts)
    ensures Fits(Process(w, s, i).rows[i], answers + [w.provider(s.tick)], w.maxAttempts)
  {
    ProcessDecides(w, s, i);
    assert (answers + [w.provider(s.tick)])[|answers|] == w.provider(s.tick);
  }

  lemma {:induction false} MarkKeepsMessages(rows: seq<Row>, idxs: seq<nat>, now: int, k: nat, i: nat)
    requires k <= |idxs| && forall j :: 0 <= j < |idxs| ==> idxs[j] < |rows| && Open(rows[idxs[j]])
    requires i < |rows|
    ensures var r := MarkFirst(rows, idxs, now, k)[i];
            && SameMessage(rows[i], r) && r.attempts == rows[i].attempts && r.sentAt == rows[i].sentAt
            && (r.status == rows[i].status || (Open(rows[i]) && r.status == Processing))
  {
    if k > 0 {
      MarkKeepsMessages(rows, idxs, now, k - 1, i);
      MarkKeepsMessages(rows, idxs, now, k - 1, idxs[k - 1]);
    }
  }

  /** After k processings of a run each deliverable row fits the answers it had before and was given since. */
  ghost predicate FitsAfter(w: World, s: State, idxs: seq<nat>, k: nat, before: nat -> seq<Provider>, r: State)
    requires k <= |idxs| && forall j :: 0 <= j < |idxs| ==> idxs[j] < |s.rows|
  {
    && |r.rows| == |s.rows| && r.tick == s.tick + 1 + 2 * k
    && (forall i :: 0 <= i < |s.rows| ==>
          && r.rows[i].id == s.rows[i].id
          && (Deliverable(r.rows[i]) ==>
                Fits(r.rows[i], before(s.rows[i].id) + AnswersInRun(w, s, idxs, k, s.rows[i].id), w.maxAttempts)))
  }

  lemma {:induction false} ProcessedFit(w: World, s: State, idxs: seq<nat>, k: nat, before: nat -> seq<Provider>)
    requires DistinctIds(s) && k <= |idxs|
    requires forall j :: 0 <= j < |idxs| ==> idxs[j] < |s.rows| && Open(s.rows[idxs[j]])
    requires forall i, j :: 0 <= i < j < |idxs| ==> idxs[i] < idxs[j]
    requires forall i :: 0 <= i < |s.rows| && Deliverable(s.rows[i]) ==>
               Fits(s.rows[i], before(s.rows[i].id), w.maxAttempts)
    ensures var m := ClaimBatch(w, s, idxs);
            var r := ProcessFirst(w, m, idxs, k);
            && FitsAfter(w, s, idxs, k, before, r)
            && (forall j :: k <= j < |idxs| ==> r.rows[idxs[j]] == m.rows[idxs[j]])
  {
    var m := ClaimBatch(w, s, idxs);
    if k == 0 {
      forall i | 0 <= i < |s.rows|
        ensures m.rows[i].id == s.rows[i].id
        ensures Deliverable(m.rows[i]) ==> Fits(m.rows[i], before(s.rows[i].id) + [], w.maxAttempts)
      {
        MarkKeepsMessages(s.rows, idxs, w.clock(s.tick), |idxs|, i);
        assert before(s.rows[i].id) + [] == before(s.rows[i].id);
      }
    } else {
      ProcessedFit(w, s, idxs, k - 1, before);
      var p := ProcessFirst(w, m, idxs, k - 1);
      var at := idxs[k - 1];
      MarkKeepsMessages(s.rows, idxs, w.clock(s.tick), |idxs|, at);
      assert p.rows[at] == m.rows[at] && Open(p.rows[at]);
      OneMoreFits(w, s, idxs, k, before, p);
    }
  }

  lemma OneMoreFits(w: World, s: State, idxs: seq<nat>, k: nat, before: nat -> seq<Provider>, p: State)
    requires DistinctIds(s) && 1 <= k <= |idxs|
    requires forall j :: 0 <= j < |idxs| ==> idxs[j] < |s.rows|
    requires FitsAfter(w, s, idxs, k - 1, before, p) && Open(p.rows[idxs[k - 1]])
    ensures FitsAfter(w, s, idxs, k, before, Process(w, p, idxs[k - 1]))
  {
    var at := idxs[k - 1];
    var r := Process(w, p, at);
    ProcessDecides(w, p, at);
    ProcessOthers(w, p, at);
    forall i | 0 <= i < |s.rows|
      ensures r.rows[i].id == s.rows[i].id
      ensures Deliverable(r.rows[i]) ==>
                Fits(r.rows[i], before(s.rows[i].id) + AnswersInRun(w, s, idxs, k, s.rows[i].id), w.maxAttempts)
    {
      var id := s.rows[i].id;
      var earlier := before(id) + AnswersInRun(w, s, idxs, k - 1, id);
      if i == at {
        assert before(id) + AnswersInRun(w, s, idxs, k, id) == earlier + [w.provider(p.tick)];
        if Deliverable(p.rows[at]) { NextAnswerFits(w, p, at, earlier); }
      } else {
        assert s.rows[at].id != id;
        assert AnswersInRun(w, s, idxs, k, id) == AnswersInRun(w, s, idxs, k - 1, id);
        assert r.rows[i] == p.rows[i];
      }
    }
  }

  // ---------------------------------------------------------------- every run

  lemma {:induction false} NobodyAnswered(w: World, s: State, idxs: seq<nat>, k: nat, id: nat)
    requires k <= |idxs| && forall j :: 0 <= j < |idxs| ==> idxs[j] < |s.rows|
    requires forall i :: 0 <= i < |s.rows| ==> s.rows[i].id != id
    ensures AnswersInRun(w, s, idxs, k, id) == []
  {
    if k > 0 { NobodyAnswered(w, s, idxs, k - 1, id); }
  }

  lemma {:induction false} UnbornHaveNoAnswers(w: World, ops: seq<Op>, id: nat)
    requires w.maxAttempts >= 1 && id >= Run(w, ops).created
    ensures Answers(w, ops, id) == []
  {
    if ops != [] {
      var init, op := ops[..|ops| - 1], ops[|ops| - 1];
      var s := Run(w, init);
      DeliveryInvariant(w, init);
      if op.WorkOp? {
        RunSpends(w, s, op.batch);
        var idxs := Claimed(s.rows, 0, op.batch);
        NobodyAnswered(w, s, idxs, |idxs|, id);
      }
      UnbornHaveNoAnswers(w, init, id);
    }
  }

  ghost predicate AllFit(w: World, s: State, answers: nat -> seq<Provider>) {
    forall i :: 0 <= i < |s.rows| && Deliverable(s.rows[i]) ==>
      Fits(s.rows[i], answers(s.rows[i].id), w.maxAttempts)
  }

  lemma AnnouncedFit(w: World, s: State, position: nat, d: Draft, answers: nat -> seq<Provider>)
    requires w.maxAttempts >= 1 && AllFit(w, s, answers) && answers(s.created) == []
    ensures AllFit(w, Announce(s, position, d), answers)
  {
    var p := if position <= |s.rows| then position else |s.rows|;
    var r := Announce(s, position, d);
    forall i | 0 <= i < |r.rows| && Deliverable(r.rows[i])
      ensures Fits(r.rows[i], answers(r.rows[i].id), w.maxAttempts)
    {
      InsertedAt(s.rows, p, NewRow(s.created, d), i);
    }
  }

  lemma RunFit(w: World, s: State, batch: nat, before: nat -> seq<Provider>, after: nat -> seq<Provider>)
    requires DistinctIds(s) && AllFit(w, s, before)
    requires var idxs := Claimed(s.rows, 0, batch);
             forall id: nat :: after(id) == before(id) + AnswersInRun(w, s, idxs, |idxs|, id)
    ensures AllFit(w, RunPending(w, s, batch), after)
  {
    var idxs := Claimed(s.rows, 0, batch);
    ClaimedRows(s.rows, 0, batch);
    forall i | 0 <= i < |s.rows| && Deliverable(s.rows[i])
      ensures Fits(s.rows[i], before(s.rows[i].id), w.maxAttempts)
    {
    }
    ProcessedFit(w, s, idxs, |idxs|, before);
  }

  /** In every run a deliverable row was tried once for each answer that the provider gave it, again only
      after transient failures. It is sent exactly when the last answer accepts it, failed exactly when that
      is permanent or the last transient one allowed, and open exactly while attempts are left. */
  lemma {:induction false} FateFollowsAnswers(w: World, ops: seq<Op>)
    requires w.maxAttempts >= 1
    ensures AllFit(w, Run(w, ops), (id: nat) => Answers(w, ops, id))
  {
    if ops != [] {
      var init, op := ops[..|ops| - 1], ops[|ops| - 1];
      var s := Run(w, init);
      DeliveryInvariant(w, init);
      FateFollowsAnswers(w, init);
      match op
      case AnnounceOp(position, d) =>
        UnbornHaveNoAnswers(w, init, s.created);
        AnnouncedFit(w, s, position, d, (id: nat) => Answers(w, init, id));
        assert forall id: nat :: Answers(w, ops, id) == Answers(w, init, id) + [] == Answers(w, init, id);
      case WorkOp(batch) =>
        RunFit(w, s, batch, (id: nat) => Answers(w, init, id), (id: nat) => Answers(w, ops, id));
    }
  }

  lemma FinishedFits(r: Row, answers: seq<Provider>, max: nat)
    requires Fits(r, answers, max) && Terminal(r) && r.attempts <= max
    ensures 1 <= |answers| <= max
    ensures r.status == Sent <==> Accepted in answers
    ensures r.status == Failed <==>
            || PermanentError in answers
            || (|answers| == max && forall k :: 0 <= k < max ==> answers[k] == TransientError)
  {
    assert answers[|answers| - 1] in answers;
  }

  /** After any history and enough further runs a deliverable row has ended: sent exactly when the provider
      accepted it within the attempts allowed, failed exactly when it met a permanent error or as many
      transient ones as there are attempts. */
  lemma {:induction false} AcceptedIsSent(w: World, ops: seq<Op>, more: seq<Op>, i: nat)
    requires w.maxAttempts >= 1
    requires forall k :: 0 <= k < |more| ==> more[k].WorkOp? && more[k].batch >= 1
    requires |more| >= |Run(w, ops).rows| * w.maxAttempts
    requires i < |Run(w, ops + more).rows| && Deliverable(Run(w, ops + more).rows[i])
    ensures var r := Run(w, ops + more).rows[i];
            var answers := Answers(w, ops + more, r.id);
            && 1 <= |answers| <= w.maxAttempts
            && (r.status == Sent <==> Accepted in answers)
            && (r.status == Failed <==>
                  || PermanentError in answers
                  || (|answers| == w.maxAttempts && forall k :: 0 <= k < |answers| ==> answers[k] == TransientError))
  {
    EveryRowIsFinished(w, ops, more);
    FateFollowsAnswers(w, ops + more);
    DeliveryInvariant(w, ops + more);
    var r := Run(w, ops + more).rows[i];
    assert GoodRow(r, w.maxAttempts) && Terminal(r);
    FinishedFits(r, Answers(w, ops + more, r.id), w.maxAttempts);
  }
}
