/** Food passes, tokens and serving for the events of a society: the tables and what each operation
    does to them, one call at a time. */
module FoodModel {
  import opened Options
  import opened Text

  const TOKEN_ALPHABET := "ABCDEFGHJKMNPQRSTUVWXYZ23456789"
  const MIN_TOKEN_LENGTH: nat := 8
  const CODE_COLUMN_LENGTH: nat := 20
  const MINUTE: nat := 60_000_000
  const BURST_WINDOW: nat := 3 * MINUTE
  const BURST_THRESHOLD: nat := 5
  const LOCKOUT: nat := 10 * MINUTE

  datatype FoodType = Veg | Jain | Kids

  datatype ServeMethod = QrScan | ManualToken | FlatLookup

  /** One row per event and flat. */
  datatype Pass = Pass(event: nat, flat: nat, veg: int, jain: int, kids: int, participating: bool)

  datatype Serving = Serving(at: int, how: ServeMethod, server: nat)

  datatype Token = Token(event: nat, flat: nat, foodType: FoodType, code: string, served: Option<Serving>)

  datatype Counter = Counter(isOpen: bool, closesAt: int)

  /** The audit rows that the service writes and reads back. A Guess is the rejection of an unknown
      token together with the burst row that the same transaction may add. Rows about a token name it
      by its position in the table. */
  datatype Audit =
    | Guess(event: nat, actor: nat, how: ServeMethod, at: int, burst: bool)
    | LockedOut(event: nat, actor: nat, how: ServeMethod, at: int)
    | AlreadyServed(token: nat, actor: nat, how: ServeMethod, at: int, via: Option<ServeMethod>)
    | ServedToken(event: nat, token: nat, actor: nat, how: ServeMethod, at: int)
    | ServedWithoutToken(event: nat, flat: nat, actor: nat, at: int)
    | GeneratedTokens(event: nat, count: nat)
    | AutoClosed(event: nat)

  datatype Db = Db(passes: seq<Pass>, tokens: seq<Token>, counters: map<nat, Counter>, audits: seq<Audit>)

  const EmptyDb := Db([], [], map[], [])

  /** The answer of the role check and the workflow engine for a call. */
  datatype Gate = Permitted | Overridden | Denied

  datatype Outcome = Done | Served(token: nat) | FellBack | Refused(why: Refusal)

  datatype Refusal =
    | NotPermitted | TooShort | AlreadyGenerated | NoUniqueCode | CodesTooLong | NothingBooked
    | InvalidMethod | InvalidToken | CounterClosed | ServiceEnded | TooManyFailures | UnknownToken | TokenUsed
    | NoEntitlement

  // ---------------------------------------------------------------- token codes

  /** A full match of [A-Z2-9]{6,20}. */
  predicate WellFormedCode(s: string) {
    6 <= |s| <= 20 && forall i :: 0 <= i < |s| ==> 'A' <= s[i] <= 'Z' || '2' <= s[i] <= '9'
  }

  function Normalize(raw: string): string {
    Upper(Strip(raw))
  }

  /** A random draw of the given length over the token alphabet. */
  predicate IsDraw(s: string, length: nat) {
    |s| == length && forall i :: 0 <= i < |s| ==> s[i] in TOKEN_ALPHABET
  }

  function Space(length: nat): nat {
    if length == 0 then 1 else 31 * Space(length - 1)
  }

  function MaxAttempts(taken: nat, length: nat): nat {
    var room := if taken >= Space(length) then 0 else 2 * (Space(length) - taken);
    var atLeast := if room < 64 then 64 else room;
    if atLeast > 10_000 then 10_000 else atLeast
  }

  /** The position of the first of the next `attempts` draws that is not taken. */
  function FirstFresh(draws: nat -> string, t: nat, taken: seq<string>, attempts: nat): (r: Option<nat>)
    ensures r.Some? ==> t <= r.value < t + attempts && draws(r.value) !in taken
    ensures r.None? ==> forall i :: t <= i < t + attempts ==> draws(i) in taken
    decreases attempts
  {
    if attempts == 0 then None
    else if draws(t) !in taken then Some(t)
    else FirstFresh(draws, t + 1, taken, attempts - 1)
  }

  /** n codes drawn one after another, each unlike those before it, and the next unused draw. */
  function DrawCodes(draws: nat -> string, length: nat, n: nat): Option<(seq<string>, nat)> {
    if n == 0 then Some(([], 0))
    else
      match DrawCodes(draws, length, n - 1)
      case None => None
      case Some((codes, t)) =>
        if |codes| >= Space(length) then None
        else
          match FirstFresh(draws, t, codes, MaxAttempts(|codes|, length))
          case None => None
          case Some(i) => Some((codes + [draws(i)], i + 1))
  }

  // ---------------------------------------------------------------- generating tokens

  function AtLeastZero(n: int): nat {
    if n < 0 then 0 else n
  }

  function CountFor(p: Pass, t: FoodType): int {
    match t
    case Veg => p.veg
    case Jain => p.jain
    case Kids => p.kids
  }

  datatype Slot = Slot(flat: nat, foodType: FoodType)

  function Copies(s: Slot, n: nat): seq<Slot> {
    if n == 0 then [] else Copies(s, n - 1) + [s]
  }

  function PassPlan(p: Pass): seq<Slot> {
    Copies(Slot(p.flat, Veg), AtLeastZero(p.veg)) +
    Copies(Slot(p.flat, Jain), AtLeastZero(p.jain)) +
    Copies(Slot(p.flat, Kids), AtLeastZero(p.kids))
  }

  predicate Participates(p: Pass, event: nat) {
    p.event == event && p.participating
  }

  /** One slot per plate, pass by pass and type by type. */
  function Plan(passes: seq<Pass>, event: nat): seq<Slot> {
    if passes == [] then []
    else
      var p := passes[|passes| - 1];
      var before := Plan(passes[..|passes| - 1], event);
      if Participates(p, event) then before + PassPlan(p) else before
  }

  function NewTokens(event: nat, slots: seq<Slot>, codes: seq<string>): (r: seq<Token>)
    requires |slots| == |codes|
    ensures |r| == |slots|
    ensures forall i :: 0 <= i < |r| ==> r[i] == Token(event, slots[i].flat, slots[i].foodType, codes[i], None)
  {
    seq(|slots|, i requires 0 <= i < |slots| => Token(event, slots[i].flat, slots[i].foodType, codes[i], None))
  }

  predicate HasTokens(db: Db, event: nat) {
    exists i :: 0 <= i < |db.tokens| && db.tokens[i].event == event
  }

  /** The answers in the order of the source, but for the role check, which comes before the length. */
  function Generate(db: Db, event: nat, length: int, draws: nat -> string, gate: Gate): (Db, Outcome) {
    if length < MIN_TOKEN_LENGTH then (db, Refused(TooShort))
    else if gate == Denied then (db, Refused(NotPermitted))
    else if HasTokens(db, event) then (db, Refused(AlreadyGenerated))
    else
      var plan := Plan(db.passes, event);
      DrawCodesLength(draws, length, |plan|);
      match DrawCodes(draws, length, |plan|)
      case None => (db, Refused(NoUniqueCode))
      case Some((codes, _)) =>
        // The column holds 20 characters; the insert of a longer code raises and nothing is written.
        if plan != [] && length > CODE_COLUMN_LENGTH then (db, Refused(CodesTooLong))
        else (db.(tokens := db.tokens + NewTokens(event, plan, codes),
                  audits := db.audits + [GeneratedTokens(event, |plan|)]), Done)
  }

  lemma {:induction false} DrawCodesLength(draws: nat -> string, length: nat, n: nat)
    ensures var r := DrawCodes(draws, length, n); r.Some? ==> |r.value.0| == n
  {
    if n > 0 { DrawCodesLength(draws, length, n - 1); }
  }

  // ---------------------------------------------------------------- passes

  predicate IsPassOf(p: Pass, event: nat, flat: nat) {
    p.event == event && p.flat == flat
  }

  /** Sets the row of an event and flat, adding it when there is none. */
  function SetPass(passes: seq<Pass>, p: Pass): seq<Pass> {
    if passes == [] then [p]
    else if IsPassOf(passes[0], p.event, p.flat) then [p] + passes[1..]
    else [passes[0]] + SetPass(passes[1..], p)
  }

  function AddPass(db: Db, event: nat, flat: nat, veg: int, jain: int, kids: int, gate: Gate): (Db, Outcome) {
    if gate == Denied then (db, Refused(NotPermitted))
    else if veg + jain + kids <= 0 then (db, Refused(NothingBooked))
    else (db.(passes := SetPass(db.passes, Pass(event, flat, veg, jain, kids, true))), Done)
  }

  function OptOut(db: Db, event: nat, flat: nat, gate: Gate): (Db, Outcome) {
    if gate == Denied then (db, Refused(NotPermitted))
    else (db.(passes := SetPass(db.passes, Pass(event, flat, 0, 0, 0, false))), Done)
  }

  // ---------------------------------------------------------------- the counter and the lockout

  function OpenCounter(db: Db, event: nat, now: int, minutes: int, gate: Gate): (Db, Outcome) {
    if gate == Denied then (db, Refused(NotPermitted))
    else (db.(counters := db.counters[event := Counter(true, now + minutes * MINUTE)]), Done)
  }

  /** Some(refusal) unless the counter is open; an expired counter is closed on the way. */
  function CheckCounter(db: Db, event: nat, now: int): (Db, Option<Refusal>) {
    if event !in db.counters || !db.counters[event].isOpen then (db, Some(CounterClosed))
    else if now > db.counters[event].closesAt then
      (db.(counters := db.counters[event := db.counters[event].(isOpen := false)],
           audits := db.audits + [AutoClosed(event)]), Some(ServiceEnded))
    else (db, None)
  }

  predicate IsBurst(a: Audit, event: nat, actor: nat) {
    a.Guess? && a.burst && a.event == event && a.actor == actor
  }

  predicate Locked(audits: seq<Audit>, event: nat, actor: nat, now: int) {
    exists i :: 0 <= i < |audits| && IsBurst(audits[i], event, actor)
             && audits[i].at >= now - LOCKOUT && now < audits[i].at + LOCKOUT
  }

  /** A rejection that the burst count sees: it is filed under the event. */
  predicate CountsAsFailure(a: Audit, event: nat, actor: nat, how: ServeMethod, since: int) {
    (a.Guess? || a.LockedOut?) && a.event == event && a.actor == actor && a.how == how && a.at >= since
  }

  function FailureCount(audits: seq<Audit>, event: nat, actor: nat, how: ServeMethod, since: int): nat {
    if audits == [] then 0
    else FailureCount(audits[..|audits| - 1], event, actor, how, since) +
         (if CountsAsFailure(audits[|audits| - 1], event, actor, how, since) then 1 else 0)
  }

  // ---------------------------------------------------------------- serving

  function ParseMethod(raw: string): Option<ServeMethod> {
    var m := Normalize(raw);
    if m == "QR_SCAN" then Some(QrScan)
    else if m == "MANUAL_TOKEN" then Some(ManualToken)
    else if m == "FLAT_LOOKUP" then Some(FlatLookup)
    else None
  }

  function FindToken(tokens: seq<Token>, event: nat, code: string): (r: Option<nat>)
    ensures r.Some? ==> r.value < |tokens| && tokens[r.value].event == event && tokens[r.value].code == code
    ensures r.None? ==> forall i :: 0 <= i < |tokens| ==> !(tokens[i].event == event && tokens[i].code == code)
  {
    if tokens == [] then None
    else
      var n := |tokens| - 1;
      match FindToken(tokens[..n], event, code)
      case Some(i) => Some(i)
      case None => if tokens[n].event == event && tokens[n].code == code then Some(n) else None
  }

  function Verify(db: Db, event: nat, rawCode: string, rawMethod: string, actor: nat, now: int,
                  gate: Gate): (Db, Outcome)
  {
    var how := ParseMethod(rawMethod);
    var code := Normalize(rawCode);
    if how.None? then (db, Refused(InvalidMethod))
    else if !WellFormedCode(code) then (db, Refused(InvalidToken))
    else if gate == Denied then (db, Refused(NotPermitted))
    else
      var (db1, closed) := CheckCounter(db, event, now);
      if closed.Some? then (db1, Refused(closed.value))
      else if Locked(db.audits, event, actor, now) then
        (db.(audits := db.audits + [LockedOut(event, actor, how.value, now)]), Refused(TooManyFailures))
      else
        match FindToken(db.tokens, event, code)
        case None =>
          var burst := FailureCount(db.audits, event, actor, how.value, now - BURST_WINDOW) >= BURST_THRESHOLD;
          (db.(audits := db.audits + [Guess(event, actor, how.value, now, burst)]), Refused(UnknownToken))
        case Some(i) => Hand(db, i, how.value, actor, now)
  }

  /** Hands out token i unless it is already served. */
  function Hand(db: Db, i: nat, how: ServeMethod, actor: nat, now: int): (Db, Outcome)
    requires i < |db.tokens|
  {
    var token := db.tokens[i];
    if token.served.Some? then
      (db.(audits := db.audits + [AlreadyServed(i, actor, how, now, Some(token.served.value.how))]), Refused(TokenUsed))
    else
      (db.(tokens := db.tokens[i := token.(served := Some(Serving(now, how, actor)))],
           audits := db.audits + [ServedToken(token.event, i, actor, how, now)]), Served(i))
  }

  predicate IsWaiting(t: Token, event: nat, flat: nat) {
    t.event == event && t.flat == flat && t.served.None?
  }

  /** The flat's first unserved token. */
  function FirstWaiting(tokens: seq<Token>, event: nat, flat: nat): (r: Option<nat>)
    ensures r.Some? ==> r.value < |tokens| && IsWaiting(tokens[r.value], event, flat)
    ensures r.None? ==> forall i :: 0 <= i < |tokens| ==> !IsWaiting(tokens[i], event, flat)
  {
    if tokens == [] then None
    else
      var n := |tokens| - 1;
      match FirstWaiting(tokens[..n], event, flat)
      case Some(i) => Some(i)
      case None => if IsWaiting(tokens[n], event, flat) then Some(n) else None
  }

  function Entitled(passes: seq<Pass>, event: nat, flat: nat): int {
    if passes == [] then 0
    else
      var p := passes[0];
      Entitled(passes[1..], event, flat) +
      (if IsPassOf(p, event, flat) && p.participating then p.veg + p.jain + p.kids else 0)
  }

  function TokensOf(tokens: seq<Token>, event: nat, flat: nat): nat {
    if tokens == [] then 0
    else TokensOf(tokens[..|tokens| - 1], event, flat) +
         (if tokens[|tokens| - 1].event == event && tokens[|tokens| - 1].flat == flat then 1 else 0)
  }

  predicate IsHandedOut(t: Token, event: nat, flat: nat) {
    t.event == event && t.flat == flat && t.served.Some?
  }

  function ServedOf(tokens: seq<Token>, event: nat, flat: nat): nat {
    if tokens == [] then 0
    else ServedOf(tokens[..|tokens| - 1], event, flat) +
         (if IsHandedOut(tokens[|tokens| - 1], event, flat) then 1 else 0)
  }

  predicate IsFallback(a: Audit, flat: nat) {
    a.ServedWithoutToken? && a.flat == flat
  }

  /** Serves without a token, for one flat, over all events: the count the source uses. */
  function FallbacksAnywhere(audits: seq<Audit>, flat: nat): nat {
    if audits == [] then 0
    else FallbacksAnywhere(audits[..|audits| - 1], flat) + (if IsFallback(audits[|audits| - 1], flat) then 1 else 0)
  }

  /** Serves without a token for one flat at one event. */
  function FallbacksAt(audits: seq<Audit>, event: nat, flat: nat): nat {
    if audits == [] then 0
    else
      var a := audits[|audits| - 1];
      FallbacksAt(audits[..|audits| - 1], event, flat) + (if IsFallback(a, flat) && a.event == event then 1 else 0)
  }

  /** Lookup by flat: an unserved token goes through Verify (which is not given the override), and
      only without one may the flat be served against its remaining entitlement. */
  function FlatServe(db: Db, event: nat, flat: nat, actor: nat, now: int, gate: Gate): (Db, Outcome) {
    if gate == Denied then (db, Refused(NotPermitted))
    else
      var (db1, closed) := CheckCounter(db, event, now);
      if closed.Some? then (db1, Refused(closed.value))
      else
        match FirstWaiting(db.tokens, event, flat)
        case Some(i) =>
          Verify(db, event, db.tokens[i].code, "FLAT_LOOKUP", actor, now,
                 if gate == Permitted then Permitted else Denied)
        case None =>
          var plates := ServedOf(db.tokens, event, flat) + FallbacksAnywhere(db.audits, flat);
          if Entitled(db.passes, event, flat) - plates <= 0 then (db, Refused(NoEntitlement))
          else (db.(audits := db.audits + [ServedWithoutToken(event, flat, actor, now)]), FellBack)
  }

  // ---------------------------------------------------------------- runs

  datatype Op =
    | GenerateOp(event: nat, length: int, draws: nat -> string, gate: Gate)
    | AddPassOp(event: nat, flat: nat, veg: int, jain: int, kids: int, gate: Gate)
    | OptOutOp(event: nat, flat: nat, gate: Gate)
    | OpenOp(event: nat, now: int, minutes: int, gate: Gate)
    | VerifyOp(event: nat, code: string, how: string, actor: nat, now: int, gate: Gate)
    | FlatOp(event: nat, flat: nat, actor: nat, now: int, gate: Gate)

  function Apply(db: Db, op: Op): (Db, Outcome) {
    match op
    case GenerateOp(event, length, draws, gate) => Generate(db, event, length, draws, gate)
    case AddPassOp(event, flat, veg, jain, kids, gate) => AddPass(db, event, flat, veg, jain, kids, gate)
    case OptOutOp(event, flat, gate) => OptOut(db, event, flat, gate)
    case OpenOp(event, now, minutes, gate) => OpenCounter(db, event, now, minutes, gate)
    case VerifyOp(event, code, how, actor, now, gate) => Verify(db, event, code, how, actor, now, gate)
    case FlatOp(event, flat, actor, now, gate) => FlatServe(db, event, flat, actor, now, gate)
  }

  function Run(ops: seq<Op>): Db {
    if ops == [] then EmptyDb else Apply(Run(ops[..|ops| - 1]), ops[|ops| - 1]).0
  }
}
