/** What sanitizing a payload leaves to be read in its canonical text: runs of six digits. The redaction
    looks at one string value at a time, so it sees neither numbers nor keys. */
module AuditRedaction {
  import opened Numerals
  import opened Text
  import opened AuditPayload
  import opened AuditPayloadProperties

  predicate SixDigitsAt(s: string, i: nat) {
    i + 6 <= |s| && forall k :: i <= k < i + 6 ==> IsDigit(s[k])
  }

  predicate SixDigitRun(s: string) {
    exists i :: 0 <= i < |s| && SixDigitsAt(s, i)
  }

  /** A value, or a key that sanitizing leaves in place, puts six digits in a row into the text. */
  predicate ShowsDigits(j: Json)
    decreases j, 1
  {
    match j
    case Num(n) => Magnitude(n) >= 100_000
    case Float(text) => SixDigitRun(text)
    case Str(s) => !Revealing(s) && SixDigitRun(Escape(s))
    case Arr(items) => SomeItemShowsDigits(items)
    case Obj(fields) => SomeFieldShowsDigits(fields)
    case _ => false
  }

  predicate SomeItemShowsDigits(items: seq<Json>)
    decreases items, 0
  {
    items != [] && (ShowsDigits(items[0]) || SomeItemShowsDigits(items[1..]))
  }

  predicate SomeFieldShowsDigits(fields: seq<Field>)
    decreases fields, 0
  {
    fields != [] &&
    (var f := fields[0];
     || SixDigitRun(Escape(f.key))
     || (!Sensitive(f.key) && ShowsDigits(f.value))
     || SomeFieldShowsDigits(fields[1..]))
  }

  // ---------------------------------------------------------------- runs and separators

  lemma RunElsewhere(s: string, i: nat, t: string, j: nat)
    requires SixDigitsAt(s, i) && j + 6 <= |t|
    requires forall k :: j <= k < j + 6 ==> t[k] == s[k - j + i]
    ensures SixDigitRun(t)
  {
    assert SixDigitsAt(t, j);
  }

  /** No run reaches across a character that is not a digit. */
  lemma RunSplits(a: string, c: char, b: string)
    requires !IsDigit(c)
    ensures SixDigitRun(a + [c] + b) <==> SixDigitRun(a) || SixDigitRun(b)
  {
    var s, n := a + [c] + b, |a| + 1;
    assert forall k :: 0 <= k < |a| ==> s[k] == a[k];
    assert forall k :: n <= k < |s| ==> s[k] == b[k - n];
    if SixDigitRun(s) {
      var i :| 0 <= i < |s| && SixDigitsAt(s, i);
      assert s[|a|] == c;
      if i + 6 <= |a| { RunElsewhere(s, i, a, i); } else { RunElsewhere(s, i, b, i - n); }
    }
    if SixDigitRun(a) {
      var i :| 0 <= i < |a| && SixDigitsAt(a, i);
      RunElsewhere(a, i, s, i);
    }
    if SixDigitRun(b) {
      var i :| 0 <= i < |b| && SixDigitsAt(b, i);
      RunElsewhere(b, i, s, i + n);
    }
  }

  lemma RunAfter(c: char, s: string)
    requires !IsDigit(c)
    ensures SixDigitRun([c] + s) <==> SixDigitRun(s)
  {
    RunSplits("", c, s);
    assert "" + [c] + s == [c] + s;
  }

  lemma RunBetween(c: char, s: string, d: char)
    requires !IsDigit(c) && !IsDigit(d)
    ensures SixDigitRun([c] + s + [d]) <==> SixDigitRun(s)
  {
    RunSplits([c] + s, d, "");
    assert [c] + s + [d] + "" == [c] + s + [d];
    RunAfter(c, s);
  }

  lemma TextShowsRuns(j: Json)
    ensures match j
            case Str(s) => SixDigitRun(Print(j)) <==> SixDigitRun(Escape(s))
            case Arr(items) => SixDigitRun(Print(j)) <==> SixDigitRun(PrintItems(items))
            case Obj(fields) => SixDigitRun(Print(j)) <==> SixDigitRun(PrintFields(fields))
            case Null => !SixDigitRun(Print(j))
            case Bool(_) => !SixDigitRun(Print(j))
            case _ => true
  {
    match j
    case Str(s) => RunBetween('"', Escape(s), '"');
    case Arr(items) => RunBetween('[', PrintItems(items), ']');
    case Obj(fields) => RunBetween('{', PrintFields(fields), '}');
    case _ =>
  }

  // ---------------------------------------------------------------- strings

  predicate Printable(s: string) {
    forall i :: 0 <= i < |s| ==> 32 <= s[i] as int <= 126
  }

  lemma {:induction false} RunHasSixDigits(s: string, i: nat, n: nat)
    requires i + n <= |s| && forall k :: i <= k < i + n ==> IsDigit(s[k])
    ensures DigitCount(s) >= n
  {
    if n > 0 {
      if i == 0 {
        RunHasSixDigits(s[1..], 0, n - 1);
      } else {
        RunHasSixDigits(s[1..], i - 1, n);
      }
    }
  }

  /** A character that is escaped by a backslash stands between runs, with and without it. */
  lemma EscapedCharSplits(p: string, c: char, u: string, t: string)
    requires !IsDigit(c) && (SixDigitRun(u) <==> SixDigitRun(t))
    ensures SixDigitRun(p + (['\\', c] + u)) <==> SixDigitRun(p + ([c] + t))
  {
    assert p + (['\\', c] + u) == p + ['\\'] + ([c] + u);
    RunSplits(p, '\\', [c] + u);
    RunAfter(c, u);
    assert p + ([c] + t) == p + [c] + t;
    RunSplits(p, c, t);
  }

  lemma EscapeOfPrintable(c: char)
    requires 32 <= c as int <= 126
    ensures EscapeChar(c) == if c == '"' || c == '\\' then ['\\', c] else [c]
  {
  }

  /** Escaping printable text inserts backslashes only, and never within a run of digits. */
  lemma {:induction false} EscapeKeepsRuns(p: string, s: string)
    requires Printable(s)
    ensures SixDigitRun(p + Escape(s)) <==> SixDigitRun(p + s)
    decreases s
  {
    if s == "" {
      assert Escape(s) == s;
    } else {
      var c, t := s[0], s[1..];
      EscapeOfPrintable(c);
      assert s == [c] + t;
      if c == '"' || c == '\\' {
        EscapeKeepsRuns("", t);
        assert "" + Escape(t) == Escape(t) && "" + t == t;
        EscapedCharSplits(p, c, Escape(t), t);
      } else {
        EscapeKeepsRuns(p + [c], t);
        assert p + ([c] + Escape(t)) == p + [c] + Escape(t);
        assert p + ([c] + t) == p + [c] + t;
      }
    }
  }

  /** In printable text the runs shown are those of the text, and a value that is not redacted has none. */
  lemma PrintableShowsItsRuns(s: string)
    requires Printable(s)
    ensures SixDigitRun(Escape(s)) <==> SixDigitRun(s)
    ensures SixDigitRun(s) ==> Revealing(s)
  {
    EscapeKeepsRuns("", s);
    assert "" + Escape(s) == Escape(s) && "" + s == s;
    if SixDigitRun(s) {
      var i :| 0 <= i < |s| && SixDigitsAt(s, i);
      RunHasSixDigits(s, i, 6);
    }
  }

  lemma KeptStringShowsNoDigits(s: string)
    requires Printable(s) && !Revealing(s)
    ensures !SixDigitRun(Print(Str(s)))
  {
    PrintableShowsItsRuns(s);
    TextShowsRuns(Str(s));
  }

  lemma MarkerIsPrintable()
    ensures Printable(REDACTED)
  {
  }

  lemma MarkerShowsNoDigits()
    ensures !SixDigitRun(Print(Str(REDACTED)))
  {
    MarkerIsNotRevealing();
    MarkerIsPrintable();
    KeptStringShowsNoDigits(REDACTED);
  }

  // ---------------------------------------------------------------- numbers

  lemma TextOfDigits(s: string)
    requires forall i :: 0 <= i < |s| ==> IsDigit(s[i])
    ensures SixDigitRun(s) <==> |s| > 5
  {
    if |s| > 5 { assert SixDigitsAt(s, 0); }
  }

  lemma DecimalLength(n: nat)
    ensures |Numeral(n, 10)| == if n < 10 then 1 else |Numeral(n / 10, 10)| + 1
  {
  }

  function PowerOfTen(k: nat): (p: nat)
    ensures p >= 1
  {
    if k == 0 then 1 else 10 * PowerOfTen(k - 1)
  }

  /** A number has more than k digits exactly when it reaches the k-th power of ten. */
  lemma {:induction false} DecimalDigits(n: nat, k: nat)
    ensures |Numeral(n, 10)| > k <==> k == 0 || n >= PowerOfTen(k)
  {
    DecimalLength(n);
    if k > 0 && n >= 10 { DecimalDigits(n / 10, k - 1); }
  }

  /** An integer shows six digits exactly from 100000 on, whatever its sign. */
  lemma NumberShowsDigitsIff(n: int)
    ensures SixDigitRun(Print(Sanitize(Num(n)))) <==> Magnitude(n) >= 100_000
  {
    var digits := Numeral(Magnitude(n), 10);
    NumeralDigits(Magnitude(n));
    TextOfDigits(digits);
    DecimalDigits(Magnitude(n), 5);
    assert PowerOfTen(5) == 100_000;
    RunAfter('-', digits);
    assert Print(Num(n)) == if n < 0 then ['-'] + digits else digits;
  }

  // ---------------------------------------------------------------- whole payloads

  lemma FieldShowsRuns(f: Field)
    ensures SixDigitRun(PrintField(f)) <==> SixDigitRun(Escape(f.key)) || SixDigitRun(Print(f.value))
  {
    var key, value := Escape(f.key), Print(f.value);
    assert PrintField(f) == ['"'] + key + ['"'] + ([':'] + value);
    RunSplits(['"'] + key, '"', [':'] + value);
    RunAfter('"', key);
    RunAfter(':', value);
  }

  lemma ItemsShowRuns(items: seq<Json>)
    requires items != []
    ensures SixDigitRun(PrintItems(items)) <==> SixDigitRun(Print(items[0])) || SixDigitRun(PrintItems(items[1..]))
  {
    if |items| > 1 { RunSplits(Print(items[0]), ',', PrintItems(items[1..])); }
  }

  lemma FieldsShowRuns(fields: seq<Field>)
    requires fields != []
    ensures SixDigitRun(PrintFields(fields)) <==>
            SixDigitRun(PrintField(fields[0])) || SixDigitRun(PrintFields(fields[1..]))
  {
    if |fields| > 1 { RunSplits(PrintField(fields[0]), ',', PrintFields(fields[1..])); }
  }

  /** The canonical text of a sanitized payload shows six digits in a row exactly when an integer of at
      least that size, a float, a key that survives, or the escapes within one string value do. */
  lemma {:induction false} DigitsSurviveIff(j: Json)
    ensures SixDigitRun(Print(Sanitize(j))) <==> ShowsDigits(j)
    decreases j, 1
  {
    TextShowsRuns(Sanitize(j));
    match j
    case Num(n) => NumberShowsDigitsIff(n);
    case Str(s) => if Revealing(s) { MarkerShowsNoDigits(); }
    case Arr(items) => DigitsSurviveInItems(items);
    case Obj(fields) => DigitsSurviveInFields(fields);
    case _ =>
  }

  lemma {:induction false} DigitsSurviveInItems(items: seq<Json>)
    ensures SixDigitRun(PrintItems(SanitizeItems(items))) <==> SomeItemShowsDigits(items)
    decreases items, 0
  {
    if items != [] {
      var clean := SanitizeItems(items);
      DigitsSurviveIff(items[0]);
      DigitsSurviveInItems(items[1..]);
      ItemsShowRuns(clean);
      assert clean[0] == Sanitize(items[0]) && clean[1..] == SanitizeItems(items[1..]);
    }
  }

  lemma {:induction false} DigitsSurviveInFields(fields: seq<Field>)
    ensures SixDigitRun(PrintFields(SanitizeFields(fields))) <==> SomeFieldShowsDigits(fields)
    decreases fields, 0
  {
    if fields != [] {
      var f, clean := fields[0], SanitizeFields(fields);
      if Sensitive(f.key) { MarkerShowsNoDigits(); } else { DigitsSurviveIff(f.value); }
      DigitsSurviveInFields(fields[1..]);
      FieldsShowRuns(clean);
      FieldShowsRuns(clean[0]);
      assert clean[0] == Field(f.key, if Sensitive(f.key) then Str(REDACTED) else Sanitize(f.value));
      assert clean[1..] == SanitizeFields(fields[1..]);
    }
  }

  // ---------------------------------------------------------------- which keys and strings are hidden

  /** Equal, or the capital and the small form of one letter. */
  predicate SameButCase(c: char, d: char) {
    || c == d
    || ('A' <= c <= 'Z' && d as int == c as int + 32)
    || ('A' <= d <= 'Z' && c as int == d as int + 32)
  }

  predicate SameTextButCase(s: string, t: string) {
    |s| == |t| && forall i :: 0 <= i < |s| ==> SameButCase(s[i], t[i])
  }

  lemma {:induction false} StripIgnoresCase(s: string, t: string)
    requires SameTextButCase(s, t)
    ensures SameTextButCase(Strip(s), Strip(t))
    decreases |s|
  {
    if s != "" && IsSpace(s[0]) {
      StripIgnoresCase(s[1..], t[1..]);
    } else if s != "" && IsSpace(s[|s| - 1]) {
      StripIgnoresCase(s[..|s| - 1], t[..|t| - 1]);
    }
  }

  predicate AllSpaces(s: string) {
    forall i :: 0 <= i < |s| ==> IsSpace(s[i])
  }

  lemma {:induction false} StripSpaces(s: string)
    requires AllSpaces(s)
    ensures Strip(s) == ""
  {
    if s != "" { StripSpaces(s[1..]); }
  }

  lemma {:induction false} StripTail(key: string, after: string)
    requires AllSpaces(after)
    ensures Strip(key + after) == Strip(key)
    decreases |key| + |after|
  {
    if key != "" && IsSpace(key[0]) {
      StripTail(key[1..], after);
      assert (key + after)[1..] == key[1..] + after;
    } else if key == "" {
      StripSpaces(after);
      assert key + after == after;
    } else if after != "" {
      StripTail(key, after[..|after| - 1]);
      assert (key + after)[..|key + after| - 1] == key + after[..|after| - 1];
    } else {
      assert key + after == key;
    }
  }

  lemma {:induction false} StripHead(before: string, key: string)
    requires AllSpaces(before)
    ensures Strip(before + key) == Strip(key)
    decreases |before|
  {
    if before == "" {
      assert before + key == key;
    } else {
      StripHead(before[1..], key);
      assert (before + key)[1..] == before[1..] + key;
    }
  }

  lemma SameLower(s: string, t: string)
    requires SameTextButCase(s, t)
    ensures Lower(s) == Lower(t)
  {
  }

  /** Neither the letter case of a key nor blanks around it make a difference to its sensitivity. */
  lemma SensitivityIgnoresCaseAndBlanks(key: string, other: string, before: string, after: string)
    requires SameTextButCase(key, other) && AllSpaces(before) && AllSpaces(after)
    ensures Sensitive(before + key + after) <==> Sensitive(other)
  {
    StripTail(before + key, after);
    StripHead(before, key);
    StripIgnoresCase(key, other);
    SameLower(Strip(key), Strip(other));
  }

  /** A key without capitals and blanks is sensitive exactly when it is one of these. */
  lemma SensitiveIff(key: string)
    requires forall i :: 0 <= i < |key| ==> 'a' <= key[i] <= 'z' || key[i] == '_'
    ensures Sensitive(key) <==>
            || key == "password" || key == "passcode" || key == "token" || key == "access_token"
            || key == "authorization" || key == "secret" || key == "email" || key == "phone"
            || key == "phone_number" || key == "chat_id" || key == "sender_id" || key == "message" || key == "text"
  {
    assert Strip(key) == key;
    assert Lower(key) == key;
  }

  /** A payload of one field. */
  function Only(key: string, value: Json): Json {
    Obj([Field(key, value)])
  }

  lemma AuthorizationInCapitals()
    ensures SameTextButCase("Authorization", "authorization")
  {
  }

  lemma OnlyIsHidden(key: string, value: Json)
    requires Sensitive(key)
    ensures Sanitize(Only(key, value)) == Only(key, Str("[REDACTED]"))
  {
    var fields := [Field(key, value)];
    assert SanitizeFields(fields[1..]) == [];
  }

  /** HTTP's header is redacted under its own name, also with blanks around it. */
  lemma AuthorizationIsHidden(before: string, after: string, value: Json)
    requires AllSpaces(before) && AllSpaces(after)
    ensures var key := before + "Authorization" + after;
            Sanitize(Only(key, value)) == Only(key, Str("[REDACTED]"))
  {
    var capital, small := "Authorization", "authorization";
    AuthorizationInCapitals();
    SensitiveIff(small);
    SensitivityIgnoresCaseAndBlanks(capital, small, before, after);
    OnlyIsHidden(before + capital + after, value);
  }

  /** The places of the digits. */
  function DigitsAt(s: string): set<nat> {
    set i: nat | i < |s| && '0' <= s[i] <= '9'
  }

  function Shifted(places: set<nat>): set<nat> {
    set i | i in places :: i + 1
  }

  lemma DigitsOfTail(s: string)
    requires s != ""
    ensures var rest := Shifted(DigitsAt(s[1..]));
            0 !in rest && DigitsAt(s) == if '0' <= s[0] <= '9' then {0} + rest else rest
  {
    forall k: nat | k in DigitsAt(s) && k > 0 ensures k in Shifted(DigitsAt(s[1..])) {
      assert k - 1 in DigitsAt(s[1..]);
    }
  }

  lemma {:induction false} ShiftedSize(places: set<nat>)
    ensures |Shifted(places)| == |places|
  {
    if places == {} {
      assert Shifted(places) == {};
    } else {
      var p :| p in places;
      ShiftedSize(places - {p});
      forall k | k in Shifted(places) ensures k in Shifted(places - {p}) + {p + 1} {
        if k != p + 1 { assert k - 1 in places - {p}; }
      }
      assert Shifted(places) == Shifted(places - {p}) + {p + 1};
    }
  }

  lemma {:induction false} DigitCountIs(s: string)
    ensures DigitCount(s) == |DigitsAt(s)|
  {
    if s == "" {
      assert DigitsAt(s) == {};
    } else {
      DigitCountIs(s[1..]);
      DigitsOfTail(s);
      ShiftedSize(DigitsAt(s[1..]));
    }
  }

  /** A string value is hidden exactly when it holds an '@' or at least six digits, wherever they stand. */
  lemma StringIsHiddenIff(s: string)
    ensures Sanitize(Str(s)) == Str(if '@' in s || |DigitsAt(s)| >= 6 then "[REDACTED]" else s)
  {
    DigitCountIs(s);
  }

  // ---------------------------------------------------------------- two payloads that leak

  lemma SensitiveKeyLengths(key: string)
    requires key in SENSITIVE_KEYS
    ensures 4 <= |key| <= 13 && |key| != 10
  {
  }

  lemma NotSensitive(key: string)
    requires key != "" && !IsSpace(key[0]) && !IsSpace(key[|key| - 1])
    requires |key| < 4 || |key| == 10
    ensures !Sensitive(key)
  {
    assert Strip(key) == key;
    if Sensitive(key) { SensitiveKeyLengths(Lower(key)); }
  }

  lemma OnlyStays(key: string, value: Json)
    requires !Sensitive(key) && Sanitize(value) == value
    ensures Sanitize(Only(key, value)) == Only(key, value)
  {
    var fields := [Field(key, value)];
    assert SanitizeFields(fields[1..]) == [];
  }

  /** Sanitizing leaves the payload {"a@b": null} as it is, and its text shows the '@'. */
  lemma AddressAsKey()
    ensures var payload := Only("a@b", Null); Sanitize(payload) == payload && '@' in Print(payload)
  {
    var key := "a@b";
    NotSensitive(key);
    OnlyStays(key, Null);
    assert key[1] == '@';
    AtSignSurvivesIff(Only(key, Null));
  }

  /** Sanitizing leaves {"0712345678": null} and {"to": 712345678} as they are, and their texts show the
      number; as a string value it would have been redacted. */
  lemma NumberAsKeyOrValue()
    ensures var payload := Only("0712345678", Null); Sanitize(payload) == payload && SixDigitRun(Print(payload))
    ensures var payload := Only("to", Num(712345678)); Sanitize(payload) == payload && SixDigitRun(Print(payload))
    ensures Revealing("0712345678")
  {
    var number, to := "0712345678", "to";
    NotSensitive(number);
    NotSensitive(to);
    OnlyStays(number, Null);
    OnlyStays(to, Num(712345678));
    assert SixDigitsAt(number, 0);
    PrintableShowsItsRuns(number);
    DigitsSurviveIff(Only(number, Null));
    DigitsSurviveIff(Only(to, Num(712345678)));
  }
}
