/** Several counters serving tokens at once. Each attempt is split as the code splits it: read the
    token row, check the copy that was read, update the row only where it is still unserved. Any
    interleaving of these steps is a run. */
module CounterRace {
  import opened Options
  import opened FoodModel

  /** How an attempt ends: it updates the row, finds it served on its copy, or finds it served on the update. */
  datatype Ending = Won | LostCheck | LostUpdate

  datatype Phase = Started | Holding(copy: Option<Serving>) | Cleared | Finished(ending: Ending)

  datatype Attempt = Attempt(token: nat, how: ServeMethod, actor: nat, phase: Phase)

  /** SERVE_FOOD_TOKEN, or REJECT_FOOD_TOKEN naming the method found on the copy of the row. */
  datatype Kind = Serve | Reject(via: Option<ServeMethod>)

  datatype Entry = Entry(attempt: nat, token: nat, serving: Serving, kind: Kind)

  datatype State = State(tokens: seq<Option<Serving>>, attempts: seq<Attempt>, audits: seq<Entry>)

  datatype Step =
    | Begin(token: nat, how: ServeMethod, actor: nat)
    | Read(attempt: nat)
    | Check(attempt: nat, now: int)
    | Update(attempt: nat, now: int)

  function Start(n: nat): State {
    State(seq(n, _ => None), [], [])
  }

  function Finish(s: State, a: nat, now: int, ending: Ending, kind: Kind): State
    requires a < |s.attempts|
  {
    var t := s.attempts[a];
    s.(attempts := s.attempts[a := t.(phase := Finished(ending))],
       audits := s.audits + [Entry(a, t.token, Serving(now, t.how, t.actor), kind)])
  }

  /** One step of one counter; a step that is not enabled does nothing. */
  function Take(s: State, step: Step): State {
    match step
    case Begin(token, how, actor) =>
      if token < |s.tokens| then s.(attempts := s.attempts + [Attempt(token, how, actor, Started)]) else s
    case Read(a) =>
      if a < |s.attempts| && s.attempts[a].phase.Started? && s.attempts[a].token < |s.tokens| then
        s.(attempts := s.attempts[a := s.attempts[a].(phase := Holding(s.tokens[s.attempts[a].token]))])
      else s
    case Check(a, now) =>
      if a < |s.attempts| && s.attempts[a].phase.Holding? then
        var copy := s.attempts[a].phase.copy;
        if copy.Some? then Finish(s, a, now, LostCheck, Reject(Some(copy.value.how)))
        else s.(attempts := s.attempts[a := s.attempts[a].(phase := Cleared)])
      else s
    case Update(a, now) =>
      if a < |s.attempts| && s.attempts[a].phase.Cleared? && s.attempts[a].token < |s.tokens| then
        var t := s.attempts[a];
        if s.tokens[t.token].None? then
          Finish(s.(tokens := s.tokens[t.token := Some(Serving(now, t.how, t.actor))]), a, now, Won, Serve)
        else Finish(s, a, now, LostUpdate, Reject(None))
      else s
  }

  function Run(n: nat, steps: seq<Step>): State {
    if steps == [] then Start(n) else Take(Run(n, steps[..|steps| - 1]), steps[|steps| - 1])
  }

  // ---------------------------------------------------------------- what is counted

  function ServesOf(audits: seq<Entry>, token: nat): nat {
    if audits == [] then 0
    else ServesOf(audits[..|audits| - 1], token) +
         (if audits[|audits| - 1].token == token && audits[|audits| - 1].kind.Serve? then 1 else 0)
  }

  function EntriesOf(audits: seq<Entry>, attempt: nat): nat {
    if audits == [] then 0
    else EntriesOf(audits[..|audits| - 1], attempt) + (if audits[|audits| - 1].attempt == attempt then 1 else 0)
  }

  lemma CountAppend(audits: seq<Entry>, e: Entry)
    ensures forall t: nat :: ServesOf(audits + [e], t) ==
              ServesOf(audits, t) + (if e.token == t && e.kind.Serve? then 1 else 0)
    ensures forall a: nat :: EntriesOf(audits + [e], a) == EntriesOf(audits, a) + (if e.attempt == a then 1 else 0)
  {
    assert (audits + [e])[..|audits|] == audits;
  }

  /** A served token has exactly one SERVE entry, an unserved one none. */
  ghost predicate ServedOnce(s: State) {
    forall t: nat :: ServesOf(s.audits, t) == if t < |s.tokens| && s.tokens[t].Some? then 1 else 0
  }

  /** A finished attempt has exactly one entry, an unfinished one none. */
  ghost predicate OneEntryEach(s: State) {
    forall a: nat :: EntriesOf(s.audits, a) == if a < |s.attempts| && s.attempts[a].phase.Finished? then 1 else 0
  }

  /** An entry agrees with its attempt, and with the row: the winner's is what the row says; a loser's row
      is served, and the loser names the method that it was served by exactly when it lost at the check.
      One that lost at the update names none. */
  predicate Truthful(s: State, e: Entry) {
    && e.attempt < |s.attempts| && e.token == s.attempts[e.attempt].token && e.token < |s.tokens|
    && e.serving.how == s.attempts[e.attempt].how && e.serving.server == s.attempts[e.attempt].actor
    && s.tokens[e.token].Some? && s.attempts[e.attempt].phase.Finished?
    && match s.attempts[e.attempt].phase.ending
       case Won => e.kind == Serve && s.tokens[e.token].value == e.serving
       case LostCheck => e.kind == Reject(Some(s.tokens[e.token].value.how))
       case LostUpdate => e.kind == Reject(None)
  }

  /** Copies in hand that show a served row show it as it is. */
  predicate HonestCopy(s: State, t: Attempt) {
    && t.token < |s.tokens|
    && (t.phase.Holding? && t.phase.copy.Some? ==> s.tokens[t.token] == t.phase.copy)
  }

  ghost predicate Sound(s: State) {
    && ServedOnce(s)
    && OneEntryEach(s)
    && (forall i :: 0 <= i < |s.audits| ==> Truthful(s, s.audits[i]))
    && (forall a :: 0 <= a < |s.attempts| ==> HonestCopy(s, s.attempts[a]))
  }

  /** Rows once served keep their time, method and server for good. */
  predicate ServedStay(s: State, r: State) {
    && |r.tokens| == |s.tokens|
    && (forall t :: 0 <= t < |s.tokens| && s.tokens[t].Some? ==> r.tokens[t] == s.tokens[t])
  }

  // ---------------------------------------------------------------- every step keeps it

  /** Moving an attempt between unfinished phases changes nothing that is counted. */
  lemma MoveKeepsSound(s: State, a: nat, phase: Phase)
    requires Sound(s) && a < |s.attempts| && !s.attempts[a].phase.Finished? && !phase.Finished?
    requires HonestCopy(s, s.attempts[a].(phase := phase))
    ensures Sound(s.(attempts := s.attempts[a := s.attempts[a].(phase := phase)]))
  {
    var r := s.(attempts := s.attempts[a := s.attempts[a].(phase := phase)]);
    forall i | 0 <= i < |r.audits| ensures Truthful(r, r.audits[i]) {
      assert Truthful(s, s.audits[i]);
    }
  }

  lemma FinishKeepsSound(s: State, a: nat, now: int, ending: Ending, kind: Kind)
    requires Sound(s) && a < |s.attempts| && !s.attempts[a].phase.Finished? && s.tokens[s.attempts[a].token].Some?
    requires ending != Won
    requires kind == Reject(if ending == LostCheck then Some(s.tokens[s.attempts[a].token].value.how) else None)
    ensures Sound(Finish(s, a, now, ending, kind))
  {
    var r := Finish(s, a, now, ending, kind);
    var t := s.attempts[a];
    CountAppend(s.audits, Entry(a, t.token, Serving(now, t.how, t.actor), kind));
    forall i | 0 <= i < |r.audits| ensures Truthful(r, r.audits[i]) {
      if i < |s.audits| { assert Truthful(s, s.audits[i]); }
    }
  }

  lemma WinKeepsSound(s: State, a: nat, now: int)
    requires Sound(s) && a < |s.attempts| && s.attempts[a].phase.Cleared?
    requires s.attempts[a].token < |s.tokens| && s.tokens[s.attempts[a].token].None?
    ensures Sound(Take(s, Update(a, now)))
  {
    var r := Take(s, Update(a, now));
    var t := s.attempts[a];
    CountAppend(s.audits, Entry(a, t.token, Serving(now, t.how, t.actor), Serve));
    forall i | 0 <= i < |r.audits| ensures Truthful(r, r.audits[i]) {
      if i < |s.audits| { assert Truthful(s, s.audits[i]); }
    }
    forall b | 0 <= b < |r.attempts| ensures HonestCopy(r, r.attempts[b]) {
      assert HonestCopy(s, s.attempts[b]);
    }
  }

  lemma StepKeepsSound(s: State, step: Step)
    requires Sound(s)
    ensures Sound(Take(s, step)) && ServedStay(s, Take(s, step))
  {
    match step
    case Begin(token, how, actor) =>
      var r := Take(s, step);
      forall i | 0 <= i < |r.audits| ensures Truthful(r, r.audits[i]) { assert Truthful(s, s.audits[i]); }
    case Read(a) =>
      if a < |s.attempts| && s.attempts[a].phase.Started? {
        assert HonestCopy(s, s.attempts[a]);
        MoveKeepsSound(s, a, Holding(s.tokens[s.attempts[a].token]));
      }
    case Check(a, now) =>
      if a < |s.attempts| && s.attempts[a].phase.Holding? {
        assert HonestCopy(s, s.attempts[a]);
        var copy := s.attempts[a].phase.copy;
        if copy.Some? {
          FinishKeepsSound(s, a, now, LostCheck, Reject(Some(copy.value.how)));
        } else {
          MoveKeepsSound(s, a, Cleared);
        }
      }
    case Update(a, now) =>
      if a < |s.attempts| && s.attempts[a].phase.Cleared? {
        assert HonestCopy(s, s.attempts[a]);
        if s.tokens[s.attempts[a].token].None? {
          WinKeepsSound(s, a, now);
        } else {
          FinishKeepsSound(s, a, now, LostUpdate, Reject(None));
        }
      }
  }

  // ---------------------------------------------------------------- every run

  /** Serve once: whatever the interleaving, a token is served by exactly one attempt, has exactly one
      SERVE entry, and keeps what the winner wrote; every attempt that lost has exactly one rejection. */
  lemma {:induction false} ServeOnce(n: nat, steps: seq<Step>)
    ensures Sound(Run(n, steps))
  {
    if steps != [] {
      ServeOnce(n, steps[..|steps| - 1]);
      StepKeepsSound(Run(n, steps[..|steps| - 1]), steps[|steps| - 1]);
    } else {
      assert forall t: nat :: ServesOf(Start(n).audits, t) == 0;
    }
  }

  /** What a token row says once it is served never changes, however the run goes on. */
  lemma {:induction false} ServedForGood(n: nat, steps: seq<Step>, more: seq<Step>)
    ensures ServedStay(Run(n, steps), Run(n, steps + more))
  {
    if more == [] {
      assert steps + more == steps;
    } else {
      var init := more[..|more| - 1];
      assert (steps + more)[..|steps + more| - 1] == steps + init;
      ServedForGood(n, steps, init);
      ServeOnce(n, steps + init);
      StepKeepsSound(Run(n, steps + init), more[|more| - 1]);
    }
  }

  /** Two attempts on one token never both win, and once any attempt on it has finished, one has won. */
  lemma ExactlyOneWinner(n: nat, steps: seq<Step>, a: nat, b: nat)
    requires var s := Run(n, steps);
             a < |s.attempts| && b < |s.attempts| && a != b && s.attempts[a].token == s.attempts[b].token
    ensures var s := Run(n, steps);
            && !(s.attempts[a].phase == Finished(Won) && s.attempts[b].phase == Finished(Won))
            && (s.attempts[a].phase.Finished? ==> ServesOf(s.audits, s.attempts[a].token) == 1)
  {
    var s := Run(n, steps);
    ServeOnce(n, steps);
    if s.attempts[a].phase.Finished? {
      var i := EntryOf(s.audits, a);
      assert Truthful(s, s.audits[i]);
      if s.attempts[a].phase.ending == Won && s.attempts[b].phase == Finished(Won) {
        var j := EntryOf(s.audits, b);
        assert Truthful(s, s.audits[j]);
        TwoServes(s.audits, s.attempts[a].token, i, j);
      }
    }
  }

  lemma {:induction false} EntryOf(audits: seq<Entry>, a: nat) returns (i: nat)
    requires EntriesOf(audits, a) > 0
    ensures i < |audits| && audits[i].attempt == a
  {
    i := |audits| - 1;
    if audits[i].attempt != a { i := EntryOf(audits[..i], a); }
  }

  lemma {:induction false} TwoServes(audits: seq<Entry>, token: nat, i: nat, j: nat)
    requires i < |audits| && j < |audits| && i != j
    requires audits[i].token == token && audits[i].kind.Serve? && audits[j].token == token && audits[j].kind.Serve?
    ensures ServesOf(audits, token) >= 2
    decreases |audits|
  {
    var n := |audits| - 1;
    if i < n && j < n {
      TwoServes(audits[..n], token, i, j);
    } else {
      OneServe(audits[..n], token, if i < n then i else j);
    }
  }

  lemma {:induction false} OneServe(audits: seq<Entry>, token: nat, i: nat)
    requires i < |audits| && audits[i].token == token && audits[i].kind.Serve?
    ensures ServesOf(audits, token) >= 1
  {
    if i < |audits| - 1 { OneServe(audits[..|audits| - 1], token, i); }
  }

  /** No attempt is stuck: read, check and update in turn finish it, won exactly when the row was unserved,
      and a winner's row says when, by whom and with which method. */
  lemma AttemptsFinish(s: State, a: nat, checked: int, updated: int)
    requires a < |s.attempts| && s.attempts[a].token < |s.tokens| && s.attempts[a].phase.Started?
    ensures var r := Take(Take(Take(s, Read(a)), Check(a, checked)), Update(a, updated));
            var t := s.attempts[a];
            && |r.attempts| == |s.attempts| && |r.tokens| == |s.tokens| && r.attempts[a].phase.Finished?
            && (r.attempts[a].phase.ending == Won <==> s.tokens[t.token].None?)
            && (s.tokens[t.token].None? ==> r.tokens[t.token] == Some(Serving(updated, t.how, t.actor)))
            && (s.tokens[t.token].Some? ==> r.tokens == s.tokens && r.attempts[a].phase.ending == LostCheck)
  {
  }

  /** A cleared attempt wins exactly when the row is still unserved at its update. */
  lemma UpdateDecides(s: State, a: nat, now: int)
    requires a < |s.attempts| && s.attempts[a].token < |s.tokens| && s.attempts[a].phase.Cleared?
    ensures var r := Take(s, Update(a, now));
            && |r.attempts| == |s.attempts|
            && r.attempts[a].phase ==
                 Finished(if s.tokens[s.attempts[a].token].None? then Won else LostUpdate)
  {
  }
}
