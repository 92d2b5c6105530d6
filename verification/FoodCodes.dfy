/** When a generation succeeds: the codes are the first occurrences among the draws, and it gives up only
    after too many repeats in a row. */
module FoodCodes {
  import opened Numerals
  import opened Options
  import opened FoodModel
  import opened FoodGeneration

  // ---------------------------------------------------------------- how many codes there are

  lemma {:induction false} SpaceIsPower(length: nat)
    ensures Space(length) == Pow(31, length)
  {
    if length > 0 { SpaceIsPower(length - 1); }
  }

  /** The alphabet: the capital letters without I, L and O, and the digits from 2 on. */
  predicate TokenChar(c: char) {
    ('A' <= c <= 'Z' && c != 'I' && c != 'L' && c != 'O') || '2' <= c <= '9'
  }

  /** The place of a character in the order of the digits and then the letters. */
  function Place(c: char): nat {
    var n := c as int;
    if !TokenChar(c) then 31
    else if c <= '9' then n - '2' as int
    else if c < 'I' then n - 'A' as int + 8
    else if c < 'L' then n - 'J' as int + 16
    else if c < 'O' then n - 'M' as int + 18
    else n - 'P' as int + 20
  }

  lemma LettersAreTokenChars(c: char)
    requires c in TOKEN_ALPHABET
    ensures TokenChar(c)
  {
  }

  lemma TokenCharsAreLetters(c: char)
    requires TokenChar(c)
    ensures c in TOKEN_ALPHABET
  {
    var letters, n := TOKEN_ALPHABET, Place(c);
    assert letters[if n < 8 then 23 + n else n - 8] == c;
  }

  lemma AlphabetIs(c: char)
    ensures c in TOKEN_ALPHABET <==> TokenChar(c)
  {
    if c in TOKEN_ALPHABET { LettersAreTokenChars(c); }
    if TokenChar(c) { TokenCharsAreLetters(c); }
  }

  lemma PlaceTellsApart(c: char, d: char)
    requires TokenChar(c) && TokenChar(d)
    ensures Place(c) < 31 && (Place(c) == Place(d) ==> c == d)
  {
  }

  function CodeValue(s: string): nat {
    if s == "" then 0 else CodeValue(s[..|s| - 1]) * 31 + Place(s[|s| - 1])
  }

  predicate TokenChars(s: string) {
    forall i :: 0 <= i < |s| ==> TokenChar(s[i])
  }

  lemma DrawsAreTokenChars(s: string, length: nat)
    requires IsDraw(s, length)
    ensures |s| == length && TokenChars(s)
  {
    forall i | 0 <= i < |s| ensures TokenChar(s[i]) { AlphabetIs(s[i]); }
  }

  lemma {:induction false} CodeValueBound(s: string)
    requires TokenChars(s)
    ensures CodeValue(s) < Pow(31, |s|)
  {
    if s != "" {
      CodeValueBound(s[..|s| - 1]);
      PlaceTellsApart(s[|s| - 1], s[|s| - 1]);
    }
  }

  lemma LastPlaces(x: nat, c: char, y: nat, d: char)
    requires TokenChar(c) && TokenChar(d) && x * 31 + Place(c) == y * 31 + Place(d)
    ensures x == y && c == d
  {
    PlaceTellsApart(c, d);
    PlaceTellsApart(d, c);
  }

  lemma {:induction false} CodeValueInjective(s: string, t: string)
    requires |s| == |t| && TokenChars(s) && TokenChars(t) && CodeValue(s) == CodeValue(t)
    ensures s == t
  {
    if s != "" {
      var n := |s| - 1;
      LastPlaces(CodeValue(s[..n]), s[n], CodeValue(t[..n]), t[n]);
      CodeValueInjective(s[..n], t[..n]);
      assert s == s[..n] + [s[n]] && t == t[..n] + [t[n]];
    }
  }

  predicate DistinctBelow(values: seq<nat>, n: nat) {
    && (forall i :: 0 <= i < |values| ==> values[i] < n)
    && (forall i, j :: 0 <= i < j < |values| ==> values[i] != values[j])
  }

  lemma {:induction false} PigeonHole(values: seq<nat>, n: nat)
    requires DistinctBelow(values, n)
    ensures |values| <= n
  {
    if values != [] {
      assert values[0] < n;
      if k :| 0 <= k < |values| && values[k] == n - 1 {
        var rest := values[..k] + values[k + 1..];
        assert forall i :: 0 <= i < |rest| ==> rest[i] == values[if i < k then i else i + 1];
        PigeonHole(rest, n - 1);
      } else {
        PigeonHole(values, n - 1);
      }
    }
  }

  /** There are no more distinct codes of a length than the space has room for. */
  lemma DistinctCodesFit(codes: seq<string>, length: nat)
    requires Distinct(codes) && forall i :: 0 <= i < |codes| ==> IsDraw(codes[i], length)
    ensures |codes| <= Pow(31, length)
  {
    var values := seq(|codes|, i requires 0 <= i < |codes| => CodeValue(codes[i]));
    forall i | 0 <= i < |codes| ensures |codes[i]| == length && TokenChars(codes[i]) && values[i] < Pow(31, length) {
      DrawsAreTokenChars(codes[i], length);
      CodeValueBound(codes[i]);
    }
    forall i, j | 0 <= i < j < |codes| ensures values[i] != values[j] {
      if values[i] == values[j] { CodeValueInjective(codes[i], codes[j]); }
    }
    PigeonHole(values, Pow(31, length));
  }

  // ---------------------------------------------------------------- how often a code is redrawn

  /** How many repeats in a row are drawn before giving up, when `taken` codes are taken. */
  function Patience(taken: nat, length: nat): int {
    var room := 2 * (Pow(31, length) - taken);
    if room <= 64 then 64 else if room >= 10_000 then 10_000 else room
  }

  lemma AttemptsAre(taken: nat, length: nat)
    ensures MaxAttempts(taken, length) == Patience(taken, length)
    ensures length >= 8 && taken <= 852_891_032_441 ==> Patience(taken, length) == 10_000
  {
    SpaceIsPower(length);
    if length >= 8 {
      PowGrows(31, 8, length);
      assert Pow(31, 1) == 31 && Pow(31, 2) == 961 && Pow(31, 3) == 29_791 && Pow(31, 4) == 923_521;
      assert Pow(31, 5) == 28_629_151 && Pow(31, 6) == 887_503_681 && Pow(31, 7) == 27_512_614_111;
      assert Pow(31, 8) == 852_891_037_441;
    }
  }

  /** The place after the last one listed. */
  function After(at: seq<nat>): nat {
    if at == [] then 0 else at[|at| - 1] + 1
  }

  predicate Repeats(draws: nat -> string, at: seq<nat>, t: nat) {
    exists j :: 0 <= j < |at| && draws(at[j]) == draws(t)
  }

  function CodesAt(draws: nat -> string, at: seq<nat>): (codes: seq<string>)
    ensures |codes| == |at|
  {
    seq(|at|, k requires 0 <= k < |at| => draws(at[k]))
  }

  /** The draw at `next` is new, and from the last place listed before on there are only repeats. */
  predicate IsNext(draws: nat -> string, before: seq<nat>, next: nat) {
    && After(before) <= next && !Repeats(draws, before, next)
    && forall t :: After(before) <= t < next ==> Repeats(draws, before, t)
  }

  /** The places of the first occurrences among the draws, up to the last one listed. */
  predicate FirstOccurrences(draws: nat -> string, at: seq<nat>) {
    forall k :: 0 <= k < |at| ==> IsNext(draws, at[..k], at[k])
  }

  /** The draw is legal and comes within the patience after the places before it. */
  predicate ComesInTime(draws: nat -> string, length: nat, before: seq<nat>, next: nat) {
    IsDraw(draws(next), length) && next - After(before) < Patience(|before|, length)
  }

  predicate InTime(draws: nat -> string, at: seq<nat>, length: nat) {
    forall k :: 0 <= k < |at| ==> ComesInTime(draws, length, at[..k], at[k])
  }

  lemma {:induction false} FirstFreshAt(draws: nat -> string, t: nat, taken: seq<string>, attempts: nat, at: nat)
    requires t <= at < t + attempts && draws(at) !in taken
    requires forall i :: t <= i < at ==> draws(i) in taken
    ensures FirstFresh(draws, t, taken, attempts) == Some(at)
    decreases at - t
  {
    if t < at { FirstFreshAt(draws, t + 1, taken, attempts - 1, at); }
  }

  lemma RepeatsAreTaken(draws: nat -> string, at: seq<nat>, t: nat)
    ensures draws(t) in CodesAt(draws, at) <==> Repeats(draws, at, t)
  {
    var codes := CodesAt(draws, at);
    assert forall j :: 0 <= j < |at| ==> codes[j] == draws(at[j]);
  }

  /** The next draw taken, when the codes drawn so far are the first occurrences before it. */
  lemma NextDraw(draws: nat -> string, before: seq<nat>, next: nat, attempts: nat)
    requires IsNext(draws, before, next) && next < After(before) + attempts
    ensures FirstFresh(draws, After(before), CodesAt(draws, before), attempts) == Some(next)
  {
    var codes, t := CodesAt(draws, before), After(before);
    forall i | t <= i < next ensures draws(i) in codes { RepeatsAreTaken(draws, before, i); }
    RepeatsAreTaken(draws, before, next);
    FirstFreshAt(draws, t, codes, attempts, next);
  }

  /** These codes are drawn, and t is the next unused draw. */
  predicate Drawn(draws: nat -> string, length: nat, codes: seq<string>, t: nat) {
    DrawCodes(draws, length, |codes|) == Some((codes, t))
  }

  lemma OneMoreCode(draws: nat -> string, length: nat, codes: seq<string>, t: nat, next: nat)
    requires Drawn(draws, length, codes, t) && |codes| < Space(length)
    requires FirstFresh(draws, t, codes, MaxAttempts(|codes|, length)) == Some(next)
    ensures Drawn(draws, length, codes + [draws(next)], next + 1)
  {
    assert |codes + [draws(next)]| - 1 == |codes|;
  }

  lemma RoomForNext(draws: nat -> string, length: nat, at: seq<nat>)
    requires at != [] && FirstOccurrences(draws, at) && InTime(draws, at, length)
    ensures |at| - 1 < Space(length)
  {
    SpaceIsPower(length);
    var codes := CodesAt(draws, at);
    forall i, j | 0 <= i < j < |at| ensures codes[i] != codes[j] {
      assert IsNext(draws, at[..j], at[j]) && at[..j][i] == at[i];
    }
    forall i | 0 <= i < |at| ensures IsDraw(codes[i], length) {
      assert ComesInTime(draws, length, at[..i], at[i]);
    }
    DistinctCodesFit(codes, length);
  }

  lemma OnePlaceMore(draws: nat -> string, before: seq<nat>, last: nat)
    ensures CodesAt(draws, before + [last]) == CodesAt(draws, before) + [draws(last)]
    ensures After(before + [last]) == last + 1
  {
  }

  lemma NextOccurrence(draws: nat -> string, length: nat, before: seq<nat>, last: nat)
    requires Drawn(draws, length, CodesAt(draws, before), After(before))
    requires |before| < Space(length) && IsNext(draws, before, last) && ComesInTime(draws, length, before, last)
    ensures Drawn(draws, length, CodesAt(draws, before + [last]), After(before + [last]))
  {
    AttemptsAre(|before|, length);
    NextDraw(draws, before, last, MaxAttempts(|before|, length));
    OneMoreCode(draws, length, CodesAt(draws, before), After(before), last);
    OnePlaceMore(draws, before, last);
  }

  lemma OccurrencesBefore(draws: nat -> string, length: nat, at: seq<nat>, n: nat)
    requires n <= |at| && FirstOccurrences(draws, at) && InTime(draws, at, length)
    ensures FirstOccurrences(draws, at[..n]) && InTime(draws, at[..n], length)
  {
    assert forall k :: 0 <= k < n ==> at[..n][..k] == at[..k];
  }

  lemma {:induction false} DrawsFirstOccurrences(draws: nat -> string, length: nat, at: seq<nat>)
    requires FirstOccurrences(draws, at) && InTime(draws, at, length)
    ensures Drawn(draws, length, CodesAt(draws, at), After(at))
  {
    if at == [] {
      assert CodesAt(draws, at) == [];
    } else {
      var n := |at| - 1;
      OccurrencesBefore(draws, length, at, n);
      DrawsFirstOccurrences(draws, length, at[..n]);
      RoomForNext(draws, length, at);
      NextOccurrence(draws, length, at[..n], at[n]);
      assert at[..n] + [at[n]] == at;
    }
  }

  // ---------------------------------------------------------------- generations

  /** A generation with the length in bounds that is permitted, at an event without tokens. */
  predicate MayGenerate(db: Db, event: nat, length: int, gate: Gate) {
    && 8 <= length <= 20 && gate != Denied
    && forall i :: 0 <= i < |db.tokens| ==> db.tokens[i].event != event
  }

  /** Such a generation succeeds as soon as the draws hold as many first occurrences as plates are planned,
      none later than the patience allows; it hands these out as codes, in order. */
  lemma GenerationSucceeds(db: Db, event: nat, length: int, draws: nat -> string, gate: Gate, at: seq<nat>)
    requires MayGenerate(db, event, length, gate) && |at| == |Plan(db.passes, event)|
    requires FirstOccurrences(draws, at) && InTime(draws, at, length)
    ensures var (r, outcome) := Generate(db, event, length, draws, gate);
            && outcome == Done
            && r == db.(tokens := db.tokens + NewTokens(event, Plan(db.passes, event), CodesAt(draws, at)),
                        audits := db.audits + [GeneratedTokens(event, |at|)])
  {
    DrawsFirstOccurrences(draws, length, at);
  }

  function UpTo(n: nat): (at: seq<nat>)
    ensures |at| == n && forall i :: 0 <= i < n ==> at[i] == i
  {
    seq(n, i requires 0 <= i < n => i)
  }

  lemma UpToOccurs(draws: nat -> string, length: nat, n: nat)
    requires forall i :: 0 <= i < n ==> IsDraw(draws(i), length)
    requires forall i, j :: 0 <= i < j < n ==> draws(i) != draws(j)
    ensures FirstOccurrences(draws, UpTo(n)) && InTime(draws, UpTo(n), length)
  {
    var at := UpTo(n);
    forall k | 0 <= k < n ensures IsNext(draws, at[..k], at[k]) && ComesInTime(draws, length, at[..k], at[k]) {
      assert forall j :: 0 <= j < k ==> at[..k][j] == j;
    }
  }

  /** In particular it succeeds when the first draws, one for each planned plate, are distinct and legal. */
  lemma DistinctDrawsSucceed(db: Db, event: nat, length: int, draws: nat -> string, gate: Gate)
    requires MayGenerate(db, event, length, gate)
    requires forall i :: 0 <= i < |Plan(db.passes, event)| ==> IsDraw(draws(i), length)
    requires forall i, j :: 0 <= i < j < |Plan(db.passes, event)| ==> draws(i) != draws(j)
    ensures var (r, outcome) := Generate(db, event, length, draws, gate);
            var n := |Plan(db.passes, event)|;
            && outcome == Done && |r.tokens| == |db.tokens| + n
            && forall i :: 0 <= i < n ==> r.tokens[|db.tokens| + i].code == draws(i)
  {
    var at := UpTo(|Plan(db.passes, event)|);
    UpToOccurs(draws, length, |at|);
    GenerationSucceeds(db, event, length, draws, gate, at);
  }

  /** And also when every first occurrence is preceded by at most 63 repeats. */
  lemma RepeatsAreRedrawn(db: Db, event: nat, length: int, draws: nat -> string, gate: Gate, at: seq<nat>)
    requires MayGenerate(db, event, length, gate) && |at| == |Plan(db.passes, event)|
    requires FirstOccurrences(draws, at)
    requires forall k :: 0 <= k < |at| ==> IsDraw(draws(at[k]), length)
    requires forall k :: 0 <= k < |at| ==> at[k] - After(at[..k]) <= 63
    ensures var (r, outcome) := Generate(db, event, length, draws, gate);
            && outcome == Done
            && forall i :: 0 <= i < |at| ==> r.tokens[|db.tokens| + i].code == draws(at[i])
  {
    forall k | 0 <= k < |at| ensures ComesInTime(draws, length, at[..k], at[k]) {
    }
    GenerationSucceeds(db, event, length, draws, gate, at);
  }

  lemma {:induction false} NothingFresh(draws: nat -> string, t: nat, taken: seq<string>, attempts: nat)
    requires forall i :: t <= i < t + attempts ==> draws(i) in taken
    ensures FirstFresh(draws, t, taken, attempts) == None
    decreases attempts
  {
    if attempts > 0 { NothingFresh(draws, t + 1, taken, attempts - 1); }
  }

  lemma NoNextCode(draws: nat -> string, length: nat, at: seq<nat>)
    requires Drawn(draws, length, CodesAt(draws, at), After(at))
    requires forall t :: After(at) <= t < After(at) + Patience(|at|, length) ==> Repeats(draws, at, t)
    ensures DrawCodes(draws, length, |at| + 1).None?
  {
    AttemptsAre(|at|, length);
    forall t | After(at) <= t < After(at) + Patience(|at|, length) ensures draws(t) in CodesAt(draws, at) {
      RepeatsAreTaken(draws, at, t);
    }
    NothingFresh(draws, After(at), CodesAt(draws, at), MaxAttempts(|at|, length));
  }

  /** It gives up, and changes nothing, when after some of the codes only repeats follow for as long as the
      patience lasts. */
  lemma GenerationGivesUp(db: Db, event: nat, length: int, draws: nat -> string, gate: Gate, at: seq<nat>)
    requires MayGenerate(db, event, length, gate) && |at| < |Plan(db.passes, event)|
    requires FirstOccurrences(draws, at) && InTime(draws, at, length)
    requires forall t :: After(at) <= t < After(at) + Patience(|at|, length) ==> Repeats(draws, at, t)
    ensures Generate(db, event, length, draws, gate) == (db, Refused(NoUniqueCode))
  {
    DrawsFirstOccurrences(draws, length, at);
    NoNextCode(draws, length, at);
    NoneStays(draws, length, |at| + 1, |Plan(db.passes, event)|);
  }

  /** The refusals that do not depend on the draws, in the order in which they are given; and without a plate
      to plan for the generation succeeds with no tokens, whatever the length. */
  lemma GenerationRefusals(db: Db, event: nat, length: int, draws: nat -> string, gate: Gate)
    ensures var answer := Generate(db, event, length, draws, gate);
            var again := exists i :: 0 <= i < |db.tokens| && db.tokens[i].event == event;
            && (answer.1 == Refused(TooShort) <==> length < 8)
            && (answer.1 == Refused(NotPermitted) <==> length >= 8 && gate == Denied)
            && (answer.1 == Refused(AlreadyGenerated) <==> length >= 8 && gate != Denied && again)
            && (answer.1 == Refused(CodesTooLong) ==> length > 20)
            && (length > 20 && Plan(db.passes, event) != [] ==> answer.1.Refused?)
            && (length >= 8 && gate != Denied && !again && Plan(db.passes, event) == [] ==>
                  answer.1 == Done && answer.0 == db.(audits := db.audits + [GeneratedTokens(event, 0)]))
            && (answer.1.Refused? ==> answer.0 == db)
  {
  }
}
